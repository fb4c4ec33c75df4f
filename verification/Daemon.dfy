/** The daemon's main loop: reloading the configuration between ticks, reusing what has not changed. */
module Daemon {
  import opened Names
  import opened Targets
  import opened Cluster
  import opened Backends
  import opened Verdicts
  import opened Engine
  import opened Timers
  import opened Pm2Path

  // ----- What a reload reuses -----

  predicate SameQueue(before: QueueConfig,
                      after: QueueConfig) { before.kind == after.kind && before.params == after.params }

  /** The comparison main makes; the node's type is not part of it. */
  predicate SameEndpoint(before: NodeConfig, after: NodeConfig)
  {
    before.url == after.url && before.username == after.username && before.password == after.password
  }

  /** One monitor per queue and one client per node, with the present parameters. */
  ghost predicate Built(config: Config, monitors: map<string, Monitor>, clients: map<string, Client>)
  {
    && monitors.Keys == config.queues.Keys && clients.Keys == config.nodes.Keys
    && (forall q :: q in config.queues ==> monitors[q].BuiltFrom(config.queues[q]))
    && (forall n :: n in config.nodes ==> clients[n].Connects(config.nodes[n]))
  }

  /** What building everything anew could have produced. */
  ghost predicate Rebuildable(config: Config, clients: map<string, Client>)
  {
    clients.Keys == config.nodes.Keys && forall n :: n in config.nodes ==> clients[n].BuiltFrom(config.nodes[n])
  }

  /** Clients of nodes that kept their endpoint are reused, all others were created from their node. */
  ghost predicate ClientsReused(before: Config, after: Config, clients: map<string, Client>, clients': map<string,
                                Client>, done: set<string>)
    requires clients.Keys == before.nodes.Keys && done <= after.nodes.Keys
  {
    && clients'.Keys == done
    && forall n :: n in done ==>
         if n in before.nodes && SameEndpoint(before.nodes[n], after.nodes[n]) then clients'[n] == clients[n]
         else clients'[n].BuiltFrom(after.nodes[n])
  }

  ghost predicate MonitorsReused(before: Config, after: Config, monitors: map<string, Monitor>,
                                 monitors': map<string, Monitor>, done: set<string>)
    requires monitors.Keys == before.queues.Keys && done <= after.queues.Keys
  {
    && monitors'.Keys == done
    && forall q :: q in done ==>
         if q in before.queues && SameQueue(before.queues[q], after.queues[q]) then monitors'[q] == monitors[q]
         else monitors'[q].BuiltFrom(after.queues[q])
  }

  lemma ReusedIsBuilt(before: Config, after: Config, monitors: map<string, Monitor>, clients: map<string, Client>,
                      monitors': map<string, Monitor>, clients': map<string, Client>)
    requires Built(before, monitors, clients)
    requires MonitorsReused(before, after, monitors, monitors', after.queues.Keys)
    requires ClientsReused(before, after, clients, clients', after.nodes.Keys)
    ensures Built(after, monitors', clients')
  {
  }

  /** A reload leaves the clients a rebuild would produce exactly when no node keeps its endpoint while its
      type changes: the reused client hides the type, which a rebuild would reject. */
  lemma ReloadAgreesExactly(before: Config, after: Config, clients: map<string, Client>, clients': map<string,
                            Client>)
    requires Rebuildable(before, clients) && ClientsReused(before, after, clients, clients', after.nodes.Keys)
    ensures Rebuildable(after, clients') <==>
              forall n :: n in before.nodes && n in after.nodes && SameEndpoint(before.nodes[n], after.nodes[n]) ==>
                before.nodes[n].kind == after.nodes[n].kind
  {
    forall n | n in after.nodes
      ensures clients'[n].BuiltFrom(after.nodes[n]) <==>
                (n in before.nodes && SameEndpoint(before.nodes[n], after.nodes[n]) ==>
                    before.nodes[n].kind == after.nodes[n].kind)
    {
      if n in before.nodes { assert clients[n].BuiltFrom(before.nodes[n]); }
    }
  }

  /** So a reload accepts a configuration that the same daemon would refuse to start with. */
  lemma TypeChangeGoesUnnoticed(before: Config, after: Config, clients: map<string, Client>)
    requires var n := NodeConfig(SUPERVISOR, "http://10.0.0.1:9001/RPC2", "", "");
             before.nodes == map["web1" := n] && after.nodes == map["web1" := n.(kind := "pm2")]
    requires Rebuildable(before, clients)
    ensures ClientsReused(before, after, clients, clients, after.nodes.Keys) && !Rebuildable(after, clients)
  {
    var n := NodeConfig(SUPERVISOR, "http://10.0.0.1:9001/RPC2", "", "");
    assert "web1" in before.nodes && before.nodes["web1"] == n;
    assert "web1" in after.nodes && after.nodes["web1"] == n.(kind := "pm2");
    assert SUPERVISOR[0] != "pm2"[0];
  }

  /** Whatever the reloads, with nodes of the one supported type the clients are always those of a rebuild. */
  lemma OneTypeAgrees(config: Config, monitors: map<string, Monitor>, clients: map<string, Client>)
    requires Built(config, monitors, clients)
    ensures Rebuildable(config, clients) <==> forall n :: n in config.nodes ==> config.nodes[n].kind == SUPERVISOR
  {
  }

  // ----- The sleep between ticks -----

  /** The pause between two rounds: the least poll interval of any target, or 2 when there is none. */
  function Interval(targets: seq<Target>): int
  {
    if |targets| == 0 then 2
    else if |targets| == 1 then targets[0].pollInterval
    else Min(Interval(targets[..|targets| - 1]), targets[|targets| - 1].pollInterval)
  }

  /** The daemon never sleeps longer than the shortest poll interval, and two seconds without a target. */
  lemma {:induction false} IntervalIsLeast(targets: seq<Target>)
    ensures targets == [] ==> Interval(targets) == 2
    ensures forall t :: t in targets ==> Interval(targets) <= t.pollInterval
    ensures targets != [] ==> exists t :: t in targets && t.pollInterval == Interval(targets)
  {
    if |targets| == 0 {
    } else if |targets| == 1 {
      assert targets[0] in targets;
    } else {
      var front, last := targets[..|targets| - 1], targets[|targets| - 1];
      IntervalIsLeast(front);
      assert targets == front + [last];
      var t :| t in front && t.pollInterval == Interval(front);
      assert t in targets && last in targets;
    }
  }

  // ----- The loops of a reload -----

  /** The monitor, or client, is taken over. */
  predicate KeepsMonitor(before: Config, after: Config, q: string)
    requires q in after.queues
  {
    q in before.queues && SameQueue(before.queues[q], after.queues[q])
  }

  predicate KeepsClient(before: Config, after: Config, n: string)
    requires n in after.nodes
  {
    n in before.nodes && SameEndpoint(before.nodes[n], after.nodes[n])
  }

  /** Every monitor that is not taken over can be built, for these queues. */
  predicate MonitorsCome(before: Config, after: Config, makes: Makes, queues: set<string>)
    requires queues <= after.queues.Keys
  {
    forall q :: q in queues && !KeepsMonitor(before, after, q) ==> after.queues[q] in makes.monitors
  }

  predicate ClientsCome(before: Config, after: Config, makes: Makes, nodes: set<string>)
    requires nodes <= after.nodes.Keys
  {
    forall n :: n in nodes && !KeepsClient(before, after, n) ==>
      after.nodes[n].kind == SUPERVISOR && after.nodes[n] in makes.clients
  }

  method RebuildMonitors(before: Config, after: Config, monitors: map<string, Monitor>, makes: Makes)
    returns (r: Option<map<string, Monitor>>)
    requires monitors.Keys == before.queues.Keys
    ensures r.Some? <==> MonitorsCome(before, after, makes, after.queues.Keys)
    ensures r.Some? ==> MonitorsReused(before, after, monitors, r.value, after.queues.Keys)
  {
    var built: map<string, Monitor> := map[];
    var rest := after.queues.Keys;
    while rest != {}
      invariant rest <= after.queues.Keys && MonitorsCome(before, after, makes, after.queues.Keys - rest)
      invariant MonitorsReused(before, after, monitors, built, after.queues.Keys - rest)
      decreases |rest|
    {
      var q :| q in rest;
      if q in before.queues && SameQueue(before.queues[q], after.queues[q]) {
        built := built[q := monitors[q]];
      } else {
        var m := CreateQueueMonitor(after.queues[q], makes);
        if m.None? {
          assert !KeepsMonitor(before, after, q);
          return None;
        }
        built := built[q := m.value];
      }
      rest := rest - {q};
    }
    return Some(built);
  }

  method RebuildClients(before: Config, after: Config, clients: map<string, Client>, makes: Makes)
    returns (r: Option<map<string, Client>>)
    requires clients.Keys == before.nodes.Keys
    ensures r.Some? <==> ClientsCome(before, after, makes, after.nodes.Keys)
    ensures r.Some? ==> ClientsReused(before, after, clients, r.value, after.nodes.Keys)
  {
    var built: map<string, Client> := map[];
    var rest := after.nodes.Keys;
    while rest != {}
      invariant rest <= after.nodes.Keys && ClientsCome(before, after, makes, after.nodes.Keys - rest)
      invariant ClientsReused(before, after, clients, built, after.nodes.Keys - rest)
      decreases |rest|
    {
      var n :| n in rest;
      if n in before.nodes && SameEndpoint(before.nodes[n], after.nodes[n]) {
        built := built[n := clients[n]];
      } else {
        var c := CreateNodeClient(after.nodes[n], makes);
        if c.None? {
          assert !KeepsClient(before, after, n);
          return None;
        }
        built := built[n := c.value];
      }
      rest := rest - {n};
    }
    return Some(built);
  }

  // ----- The main loop -----

  /** A reload: what the configuration file parses to, if it does, and what can be built at the time. */
  datatype Hup = Hup(loaded: Option<Config>, makes: Makes)

  /** What happens before a tick, a reload or nothing, and what the backends say in it. */
  datatype Round = Round(reload: Option<Hup>, now: real, queues: Queues) {
    predicate Loads() { reload.Some? && reload.value.loaded.Some? }
  }

  /** A reload is taken over exactly when the file parses and everything that is not taken over can be built. */
  predicate Takes(before: Config, hup: Hup)
  {
    && hup.loaded.Some?
    && MonitorsCome(before, hup.loaded.value, hup.makes, hup.loaded.value.queues.Keys)
    && ClientsCome(before, hup.loaded.value, hup.makes, hup.loaded.value.nodes.Keys)
  }

  predicate Reloads(before: Config, round: Round) { round.reload.Some? && Takes(before, round.reload.value) }

  /** The configuration in force after a round, and after many. */
  function AfterRound(before: Config, round: Round): Config
  {
    if Reloads(before, round) then round.reload.value.loaded.value else before
  }

  function InForce(first: Config, rounds: seq<Round>): Config
  {
    if |rounds| == 0 then first
    else AfterRound(InForce(first, rounds[..|rounds| - 1]), rounds[|rounds| - 1])
  }

  lemma InForceStep(first: Config, rounds: seq<Round>, k: nat)
    requires k < |rounds|
    ensures InForce(first, rounds[..k + 1]) == AfterRound(InForce(first, rounds[..k]), rounds[k])
  {
    assert rounds[..k + 1][..k] == rounds[..k];
  }

  /** A reload in which every queue and node is as before needs nothing but a file that parses. */
  lemma UnchangedBackendsReload(before: Config, after: Config, makes: Makes)
    requires forall q :: q in after.queues ==> q in before.queues && before.queues[q] == after.queues[q]
    requires forall n :: n in after.nodes ==>
               && n in before.nodes && before.nodes[n].url == after.nodes[n].url
               && before.nodes[n].username == after.nodes[n].username
               && before.nodes[n].password == after.nodes[n].password
    ensures Takes(before, Hup(Some(after), makes))
  {
  }

  // ----- One round -----

  /** The states a round's tick starts from. */
  function BeforeTick(reloaded: bool, state: States, names: set<string>): States
  {
    if reloaded then Carryover(state, names) else state
  }

  /** What a round did: every target made its tick, its history grew by it, and the reports are a true account
      of everything since the round began. */
  ghost predicate RoundDone(targets: seq<Target>, clients: set<string>, before: States, round: Round,
                            reports: seq<Report>, state: States, h0: Histories, histories: Histories, start: Cells,
                            first: Record, last: Record)
  {
    && |reports| == |targets|
    && Progress(targets, clients, before, round.now, reports, state)
    && Appended(targets, before, round.now, reports, state, h0, histories)
    && AllHonest(targets, clients, before, round.now, reports, start, first, last)
  }

  lemma StillRenewed(targets: seq<Target>, state: States, histories: Histories)
    requires Consistent(targets, state, histories)
    ensures Renewed(targets, state, histories, histories)
  {
    forall t | t in targets
      ensures Carried(t, state, histories, histories)
    {
      var i :| 0 <= i < |targets| && targets[i] == t;
      assert Current(targets[i], state, histories);
    }
  }

  lemma AppendedSince(targets: seq<Target>, before: States, now: real, reports: seq<Report>, state: States,
                      h0: Histories, renewed: Histories, histories: Histories)
    requires Renewed(targets, before, h0, renewed) && Appended(targets, before, now, reports, state, renewed, histories)
    ensures Appended(targets, before, now, reports, state, h0, histories)
  {
    forall i | 0 <= i < |targets|
      ensures AppendedOne(targets[i], before, now, reports, i, state, h0, histories)
    {
      assert AppendedOne(targets[i], before, now, reports, i, state, renewed, histories);
      assert Carried(targets[i], before, h0, renewed);
    }
  }

  lemma HonestSince(targets: seq<Target>, clients: set<string>, before: States, now: real, reports: seq<Report>,
                    start: Cells, first: Record, mid: Record, last: Record)
    requires AllHonest(targets, clients, before, now, reports, start, mid, last)
    requires first.ledger == mid.ledger && first.calls == mid.calls && Later(first.runs, mid.runs)
    ensures AllHonest(targets, clients, before, now, reports, start, first, last)
  {
    LaterStill(first.runs, mid.runs, last.runs);
    forall i | 0 <= i < |reports| && i < |targets|
      ensures Observed(start, first.runs, last.runs, targets[i].name, reports[i])
    {
      ObservedLonger(start, first.runs, mid.runs, last.runs, last.runs, targets[i].name, reports[i]);
    }
  }

  // ----- Many rounds -----

  /** The target is in force, with the same parameters, from before the first round to after the last. */
  ghost predicate KeptThrough(t: Target, first: Config, rounds: seq<Round>)
  {
    forall k: nat :: k <= |rounds| ==> InForceAt(t, first, rounds, k)
  }

  ghost predicate InForceAt(t: Target, first: Config, rounds: seq<Round>, k: nat)
    requires k <= |rounds|
  {
    t in InForce(first, rounds[..k]).targets
  }

  /** A tick is what the round's report for the target says. */
  ghost predicate ToldBy(t: Target, targets: seq<Target>, now: real, reports: seq<Report>, c: Clock, tick: Timers.Tick)
  {
    t.Valid() && exists i :: ToldAt(t, targets, now, reports, c, tick, i)
  }

  ghost predicate ToldAt(t: Target, targets: seq<Target>, now: real, reports: seq<Report>, c: Clock, tick: Timers.Tick,
                         i: nat)
    requires t.Valid()
  {
    i < |targets| && i < |reports| && targets[i] == t && tick == Timers.Tick(now, OutcomeOf(t, c, now, reports[i]))
  }

  /** The history h grew to h' by exactly one tick per round: each at its round's time, with the outcome its
      round reported. */
  ghost predicate Recounts(t: Target, h: History, h': History, first: Config, rounds: seq<Round>,
                           reports: seq<seq<Report>>)
    requires |rounds| == |reports|
  {
    && h.target == h'.target == t
    && |h'.ticks| == |h.ticks| + |rounds| && h.ticks <= h'.ticks
    && |h'.clocks| == |h'.ticks| + 1 && h.clocks <= h'.clocks
    && forall k: nat :: k < |rounds| ==> TickOfRound(t, h, h', first, rounds, reports, k)
  }

  ghost predicate TickOfRound(t: Target, h: History, h': History, first: Config, rounds: seq<Round>,
                              reports: seq<seq<Report>>, k: nat)
    requires |rounds| == |reports| && k < |rounds|
    requires |h'.ticks| == |h.ticks| + |rounds| && |h'.clocks| == |h'.ticks| + 1
  {
    ToldBy(t, InForce(first, rounds[..k + 1]).targets, rounds[k].now, reports[k],
           h'.clocks[|h.ticks| + k], h'.ticks[|h.ticks| + k])
  }

  ghost predicate OneRecounted(t: Target, first: Config, rounds: seq<Round>, reports: seq<seq<Report>>,
                               h0: Histories, histories: Histories)
    requires |rounds| == |reports|
  {
    KeptThrough(t, first, rounds) ==>
      t.name in h0 && t.name in histories && Recounts(t, h0[t.name], histories[t.name], first, rounds, reports)
  }

  /** Every target that is in force throughout is recounted so. */
  ghost predicate AllRecounted(first: Config, rounds: seq<Round>, reports: seq<seq<Report>>,
                               h0: Histories, histories: Histories)
    requires |rounds| == |reports|
  {
    forall t {:trigger OneRecounted(t, first, rounds, reports, h0, histories)} ::
      OneRecounted(t, first, rounds, reports, h0, histories)
  }

  lemma NothingToRecount(first: Config, state: States, histories: Histories)
    requires Consistent(first.targets, state, histories)
    ensures AllRecounted(first, [], [], histories, histories)
  {
    forall t
      ensures OneRecounted(t, first, [], [], histories, histories)
    {
      if KeptThrough(t, first, []) {
        assert InForceAt(t, first, [], 0);
        var i :| 0 <= i < |first.targets| && first.targets[i] == t;
        assert Current(first.targets[i], state, histories);
      }
    }
  }

  lemma KeptBefore(t: Target, first: Config, rounds: seq<Round>, k: nat)
    requires k < |rounds| && KeptThrough(t, first, rounds[..k + 1])
    ensures KeptThrough(t, first, rounds[..k])
    ensures t in InForce(first, rounds[..k]).targets && t in InForce(first, rounds[..k + 1]).targets
  {
    forall j: nat | j <= k
      ensures InForceAt(t, first, rounds[..k], j)
    {
      assert InForceAt(t, first, rounds[..k + 1], j);
      assert rounds[..k + 1][..j] == rounds[..k][..j];
    }
    assert InForceAt(t, first, rounds[..k], k);
    assert rounds[..k][..k] == rounds[..k];
    assert InForceAt(t, first, rounds[..k + 1], k + 1);
    assert rounds[..k + 1][..k + 1] == rounds[..k + 1];
  }

  lemma RecountRound(first: Config, rounds: seq<Round>, k: nat, reports: seq<seq<Report>>,
                     report: seq<Report>, h0: Histories, histories: Histories, state: States, state': States,
                     histories': Histories)
    requires k < |rounds| && |reports| == k
    requires AllRecounted(first, rounds[..k], reports, h0, histories)
    requires Consistent(InForce(first, rounds[..k]).targets, state, histories)
    requires var targets := InForce(first, rounds[..k + 1]).targets;
             var before := BeforeTick(Reloads(InForce(first, rounds[..k]), rounds[k]), state, TargetNames(targets));
             |report| == |targets| && Appended(targets, before, rounds[k].now, report, state', histories, histories')
    ensures AllRecounted(first, rounds[..k + 1], reports + [report], h0, histories')
  {
    var targets := InForce(first, rounds[..k + 1]).targets;
    var before := BeforeTick(Reloads(InForce(first, rounds[..k]), rounds[k]), state, TargetNames(targets));
    var rounds', reports' := rounds[..k + 1], reports + [report];
    forall t
      ensures OneRecounted(t, first, rounds', reports', h0, histories')
    {
      if KeptThrough(t, first, rounds[..k + 1]) {
        KeptBefore(t, first, rounds, k);
        assert OneRecounted(t, first, rounds[..k], reports, h0, histories);
        KeptClock(t, InForce(first, rounds[..k]).targets, targets, Reloads(InForce(first, rounds[..k]), rounds[k]),
                  state, histories);
        var i :| 0 <= i < |targets| && targets[i] == t;
        assert AppendedOne(targets[i], before, rounds[k].now, report, i, state', histories, histories');
        RecountOne(t, first, rounds, k, reports, report, h0[t.name], histories[t.name], before[t.name],
                   state'[t.name], i);
      }
    }
  }

  /** A kept target's tick starts from its own timers. */
  lemma KeptClock(t: Target, had: seq<Target>, targets: seq<Target>, reloaded: bool, state: States,
                  histories: Histories)
    requires Consistent(had, state, histories) && t in had && t in targets
    ensures var before := BeforeTick(reloaded, state, TargetNames(targets));
            && t.Valid() && t.name in before && t.name in histories && histories[t.name].target == t
            && Faithful(histories[t.name], before[t.name].clock)
  {
    var i :| 0 <= i < |had| && had[i] == t;
    assert Current(had[i], state, histories);
  }

  lemma RecountOne(t: Target, first: Config, rounds: seq<Round>, k: nat, reports: seq<seq<Report>>,
                   report: seq<Report>, h0: History, h: History, s: TargetState, s': TargetState, i: nat)
    requires k < |rounds| && |reports| == k && t.Valid()
    requires Recounts(t, h0, h, first, rounds[..k], reports) && Faithful(h, s.clock)
    requires var targets := InForce(first, rounds[..k + 1]).targets;
             i < |targets| == |report| && targets[i] == t
    ensures Recounts(t, h0, Lengthened(h, s, rounds[k].now, report[i], s'), first, rounds[..k + 1],
                     reports + [report])
  {
    var h' := Lengthened(h, s, rounds[k].now, report[i], s');
    var targets := InForce(first, rounds[..k + 1]).targets;
    assert h'.clocks == h.clocks + [s'.clock] && |h'.ticks| == |h.ticks| + 1;
    var rounds', reports' := rounds[..k + 1], reports + [report];
    forall j: nat | j < |rounds'|
      ensures TickOfRound(t, h0, h', first, rounds', reports', j)
    {
      if j < k {
        assert TickOfRound(t, h0, h, first, rounds[..k], reports, j);
        assert rounds[..k + 1][..j + 1] == rounds[..k][..j + 1];
      } else {
        assert rounds[..k + 1][..j + 1] == rounds[..k + 1];
        assert ToldAt(t, targets, rounds[k].now, report, s.clock, h'.ticks[|h.ticks|], i);
      }
    }
  }

  /** Every report of every round goes by what the backends then in force said in that round. */
  ghost predicate RoundsWentBy(first: Config, rounds: seq<Round>, reports: seq<seq<Report>>)
    requires |rounds| == |reports|
  {
    forall k: nat :: k < |rounds| ==> RoundWentBy(first, rounds, reports, k)
  }

  ghost predicate RoundWentBy(first: Config, rounds: seq<Round>, reports: seq<seq<Report>>, k: nat)
    requires k < |rounds| == |reports|
  {
    var config := InForce(first, rounds[..k + 1]);
    AllWentBy(config.queues.Keys, rounds[k].queues, config.targets, reports[k])
  }

  lemma WentByRound(first: Config, rounds: seq<Round>, k: nat, reports: seq<seq<Report>>, report: seq<Report>)
    requires k < |rounds| && |reports| == k && RoundsWentBy(first, rounds[..k], reports)
    requires var config := InForce(first, rounds[..k + 1]);
             AllWentBy(config.queues.Keys, rounds[k].queues, config.targets, report)
    ensures RoundsWentBy(first, rounds[..k + 1], reports + [report])
  {
    var rounds', reports' := rounds[..k + 1], reports + [report];
    forall j: nat | j < |rounds'|
      ensures RoundWentBy(first, rounds', reports', j)
    {
      assert rounds[..k + 1][..j + 1] == rounds[..j + 1];
      if j < k {
        assert RoundWentBy(first, rounds[..k], reports, j) && rounds[..k][..j + 1] == rounds[..j + 1];
      }
    }
  }

  class Daemon {
    var config: Config
    var monitors: map<string, Monitor>
    var clients: map<string, Client>
    var minInterval: int
    const engine: ScalerEngine

    ghost predicate Valid()
      reads this, engine, engine.cluster
    {
      && engine.Valid() && engine.config == config && engine.monitors == monitors && engine.clients == clients
      && Built(config, monitors, clients) && minInterval == Interval(config.targets)
    }

    constructor (config: Config, monitors: map<string, Monitor>, clients: map<string, Client>, cluster: Cluster,
                 pm2: Pm2)
      requires config.Accepted() && Built(config, monitors, clients)
      requires cluster.Valid() && forall k :: PendingIn(cluster.cells, k) == {}
      ensures Valid() && this.config == config && this.monitors == monitors && this.clients == clients
      ensures fresh(engine) && engine.cluster == cluster && engine.pm2 == pm2
    {
      this.config, this.monitors, this.clients := config, monitors, clients;
      engine := new ScalerEngine(config, monitors, clients, cluster, pm2);
      minInterval := Interval(config.targets);
    }

    /** The SIGHUP block: all or nothing. */
    method Reload(hup: Hup) returns (ok: bool)
      requires Valid() && (hup.loaded.Some? ==> hup.loaded.value.Accepted())
      modifies this, engine, engine.cluster
      ensures Valid() && (ok <==> Takes(old(config), hup))
      ensures !ok ==> unchanged(this) && unchanged(engine) && unchanged(engine.cluster)
      ensures engine.cluster.tallies == old(engine.cluster.tallies) && engine.cluster.calls == old(engine.cluster.calls)
      ensures Later(old(engine.cluster.runs), engine.cluster.runs)
      ensures ok ==>
                && config == hup.loaded.value
                && MonitorsReused(old(config), config, old(monitors), monitors, config.queues.Keys)
                && ClientsReused(old(config), config, old(clients), clients, config.nodes.Keys)
                && engine.state == Carryover(old(engine.state), TargetNames(config.targets))
                && Renewed(config.targets, engine.state, old(engine.histories), engine.histories)
    {
      if hup.loaded.None? {
        return false;
      }
      var newConfig := hup.loaded.value;
      var newMonitors := RebuildMonitors(config, newConfig, monitors, hup.makes);
      if newMonitors.None? {
        return false;
      }
      var newClients := RebuildClients(config, newConfig, clients, hup.makes);
      if newClients.None? {
        return false;
      }
      ReusedIsBuilt(config, newConfig, monitors, clients, newMonitors.value, newClients.value);
      config := newConfig;
      clients := newClients.value;
      monitors := newMonitors.value;
      engine.ReloadConfig(newConfig, newMonitors, newClients);
      minInterval := Interval(newConfig.targets);
      return true;
    }

    /** One iteration of the main loop. */
    method RunOne(round: Round) returns (reports: seq<Report>)
      requires Valid() && (round.Loads() ==> round.reload.value.loaded.value.Accepted())
      modifies this, engine, engine.cluster, engine.pm2
      ensures Valid() && config == AfterRound(old(config), round)
      ensures RoundDone(config.targets, clients.Keys,
                        BeforeTick(Reloads(old(config), round), old(engine.state), TargetNames(config.targets)), round,
                        reports, engine.state, old(engine.histories), engine.histories, engine.cluster.start,
                        old(engine.Now()), engine.Now())
      ensures AllWentBy(config.queues.Keys, round.queues, config.targets, reports)
      ensures engine.pm2.log == old(engine.pm2.log) + AllPilotCalls(config.targets, reports)
    {
      var ok := false;
      if round.reload.Some? {
        ok := Reload(round.reload.value);
      }
      ghost var mid, renewed, reloaded := engine.state, engine.histories, engine.Now();
      if !ok { StillRenewed(config.targets, mid, renewed); }
      reports := engine.Tick(round.now, round.queues);
      AppendedSince(config.targets, mid, round.now, reports, engine.state, old(engine.histories), renewed,
                    engine.histories);
      HonestSince(config.targets, clients.Keys, mid, round.now, reports, engine.cluster.start, old(engine.Now()),
                  reloaded, engine.Now());
    }

    /** The main loop, over any number of rounds. */
    method Run(rounds: seq<Round>) returns (reports: seq<seq<Report>>)
      requires Valid()
      requires forall k :: 0 <= k < |rounds| && rounds[k].Loads() ==> rounds[k].reload.value.loaded.value.Accepted()
      modifies this, engine, engine.cluster, engine.pm2
      ensures Valid() && |reports| == |rounds| && config == InForce(old(config), rounds)
      ensures Later(old(engine.cluster.runs), engine.cluster.runs)
      ensures AllRecounted(old(config), rounds, reports, old(engine.histories), engine.histories)
      ensures RoundsWentBy(old(config), rounds, reports)
    {
      reports := [];
      ghost var first, h0 := config, engine.histories;
      NothingToRecount(first, engine.state, h0);
      for k := 0 to |rounds|
        invariant Valid() && |reports| == k && config == InForce(first, rounds[..k])
        invariant Later(old(engine.cluster.runs), engine.cluster.runs)
        invariant AllRecounted(first, rounds[..k], reports, h0, engine.histories)
        invariant RoundsWentBy(first, rounds[..k], reports)
      {
        ghost var before, had, histories := engine.cluster.runs, engine.state, engine.histories;
        var report := RunOne(rounds[k]);
        LaterStill(old(engine.cluster.runs), before, engine.cluster.runs);
        InForceStep(first, rounds, k);
        RecountRound(first, rounds, k, reports, report, h0, histories, had, engine.state, engine.histories);
        WentByRound(first, rounds, k, reports, report);
        reports := reports + [report];
      }
      assert rounds[..|rounds|] == rounds;
    }
  }
}
