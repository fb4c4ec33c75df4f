/** Phase 1 of a supervisor tick: confirming pending stops, node by node. */
module Confirmation {
  import opened Names
  import opened Group
  import opened Plugin
  import opened Protocol
  import opened Tallies
  import opened Cluster

  /** The pending names of one target, node by node. */
  type Pending = map<string, seq<nat>>

  type Logs = map<string, NodeLog>

  // ----- What one node's reply says about its pending names -----

  function NamesOf(infos: seq<ProcInfo>): set<nat> { set p | p in infos :: p.name }

  function StoppedNames(infos: seq<ProcInfo>): set<nat> { set p | p in infos && IsStopped(p.state) :: p.name }

  function BusyNames(infos: seq<ProcInfo>): set<nat> { set p | p in infos && !IsStopped(p.state) :: p.name }

  /** The calls made to one node and their outcome: getGroupInfo, and confirmScaleDown if there was
      anything to confirm. */
  datatype NodeLog = NodeLog(info: Option<seq<ProcInfo>>, asked: seq<nat>, confirmed: bool)

  /** A node's pending names after phase 1. It depends on that node's own names and replies only. */
  function NextPending(names: set<nat>, configured: bool, log: NodeLog): set<nat>
  {
    if !configured then {}
    else match log.info
         case None => names
         case Some(infos) =>
           if names * StoppedNames(infos) == {} || log.confirmed then names * BusyNames(infos) else names
  }

  /** A name leaves exactly when its node is no longer configured, or the node answered, does not report
      the process as still busy, and did not fail to confirm what it reported stopped. */
  lemma NameLeavesExactly(names: set<nat>, configured: bool, log: NodeLog, x: nat)
    requires x in names
    ensures x !in NextPending(names, configured, log) <==>
              || !configured
              || (log.info.Some? && x !in BusyNames(log.info.value)
                  && (names * StoppedNames(log.info.value) == {} || log.confirmed))
    ensures NextPending(names, configured, log) <= names
  {
  }

  /** With each process reported once, a pending name is gone, stopped or busy, and only one of these;
      if it leaves while its process is there, the process was stopped and its removal confirmed. */
  lemma LeavesStoppedAndConfirmed(v: GroupView, names: set<nat>, log: NodeLog, x: nat)
    requires x in names && log.info.Some? && ReportsGroup(v, log.info.value)
    ensures x in NamesOf(log.info.value) <==> x in v.procs
    ensures x in StoppedNames(log.info.value) <==> x in v.procs && IsStopped(v.procs[x])
    ensures x in BusyNames(log.info.value) <==> x in v.procs && !IsStopped(v.procs[x])
    ensures x !in NextPending(names, true, log) && x in v.procs ==> IsStopped(v.procs[x]) && log.confirmed
  {
    var infos := log.info.value;
    ReportSays(v, infos, x);
    assert x in StoppedNames(infos) ==> x in names * StoppedNames(infos);
  }

  lemma ReportSays(v: GroupView, infos: seq<ProcInfo>, x: nat)
    requires ReportsGroup(v, infos)
    ensures x in NamesOf(infos) <==> x in v.procs
    ensures x in StoppedNames(infos) <==> x in v.procs && IsStopped(v.procs[x])
    ensures x in BusyNames(infos) <==> x in v.procs && !IsStopped(v.procs[x])
  {
    assert forall p :: p in infos ==> p.name in v.procs && p.state == v.procs[p.name];
    if x in v.procs {
      var j :| 0 <= j < |infos| && infos[j].name == x;
      var p := infos[j];
      assert p in infos && p.name == x && p.state == v.procs[x];
    }
  }

  /** At step k process x left the group, by a confirmScaleDown or in a crash, and from then on up to the given
      moment it was pending: it is the process that was to be removed, not an earlier one of the same number. */
  ghost predicate LeavesPending(c: Cell, run: seq<Step>, k: nat, to: nat, x: nat)
  {
    && LeavesRightly(c, run, k, x) && to <= |run|
    && forall i {:trigger PendingAt(c, run, i, x)} :: k < i <= to ==> PendingAt(c, run, i, x)
  }

  /** Over runs: a name that stops being pending while its node is configured belongs to a process that left
      its group, by a confirmScaleDown or in a crash. */
  lemma LeavesOnlyIfGone(start: Cells, runs: Runs, cells: Cells, ledger: Ledger, runs': Runs, cells': Cells,
                         ledger': Ledger, key: Key, names: seq<nat>, log: NodeLog, x: nat)
    requires Recorded(start, runs, cells, ledger) && Recorded(start, runs', cells', ledger') && Later(runs, runs')
    requires key in start && start[key].pending == {} && cells[key].pending == SetOf(names)
    requires log.info.Some? ==> Seen(start, runs, runs', key, log.info.value)
    requires log.confirmed ==> ledger'[key].gone == ledger[key].gone + multiset(log.asked)
    requires log.info.Some? ==> SetOf(log.asked) == SetOf(names) * StoppedNames(log.info.value)
    requires x in SetOf(names) && x !in NextPending(SetOf(names), true, log)
    ensures exists k :: LeavesPending(start[key], runs'[key], k, |runs[key]|, x)
  {
    assert Traced(start, runs, cells, ledger, key) && Traced(start, runs', cells', ledger', key);
    assert Longer(runs, runs', key);
    var infos := log.info.value;
    if x in StoppedNames(infos) {
      assert x in SetOf(log.asked) && x in SetOf(names) * StoppedNames(infos);
      AcknowledgedIsRemoved(start, runs, cells, ledger, runs', cells', ledger', key, log.asked);
      RemovedNow(start[key], |runs[key]|, runs'[key], x);
    } else {
      assert x !in BusyNames(infos);
      VanishedBefore(start[key], runs[key], runs'[key], infos, x);
    }
  }

  lemma RemovedNow(c: Cell, from: nat, run: seq<Step>, x: nat)
    requires Removed(c, from, run, x)
    ensures exists k :: LeavesPending(c, run, k, from, x)
  {
    var k: nat :| from <= k && LeavesConfirmed(c, run, k, x);
    assert LeavesPending(c, run, k, from, x);
  }

  lemma VanishedBefore(c: Cell, run: seq<Step>, run': seq<Step>, infos: seq<ProcInfo>, x: nat)
    requires IsRun(c, run') && run <= run' && c.pending == {} && x in After(c, run).pending
    requires exists k :: SeenAt(c, |run|, run', k, infos)
    requires x !in StoppedNames(infos) && x !in BusyNames(infos)
    ensures exists k :: LeavesPending(c, run', k, |run|, x)
  {
    var m :| SeenAt(c, |run|, run', m, infos);
    ReportSays(At(c, run', m).view, infos, x);
    assert run'[..|run|] == run;
    PendingWasNamed(c, run', |run|, x);
    var j: nat :| NamedSince(c, run', j, |run|, x);
    LeftSince(c, run', j, |run|, m, x);
  }

  lemma LeftSince(c: Cell, run: seq<Step>, j: nat, to: nat, m: nat, x: nat)
    requires IsRun(c, run) && NamedSince(c, run, j, to, x) && to <= m <= |run| && x !in At(c, run, m).view.procs
    ensures exists k :: LeavesPending(c, run, k, to, x)
  {
    LeftSomewhere(c, run, j, m, x);
    var k: nat :| j <= k < m && LeavesRightly(c, run, k, x);
    assert LeavesPending(c, run, k, to, x);
  }

  // ----- The calls it takes -----

  ghost function ConfirmCalls(key: Key, asked: seq<nat>, confirmed: bool): multiset<Call>
  {
    if asked != [] then multiset{Call(key, Removing, confirmed)} else multiset{}
  }

  /** A configured node with pending names is asked for its group, then to remove what has stopped, if anything. */
  ghost function NodeCalls(key: Key, configured: bool, names: seq<nat>, log: NodeLog): multiset<Call>
  {
    if names == [] || !configured then multiset{}
    else multiset{Call(key, Asking, log.info.Some?)} + ConfirmCalls(key, log.asked, log.confirmed)
  }

  // ----- The loops -----

  method Listing(s: set<nat>) returns (r: seq<nat>)
    ensures SetOf(r) == s && Distinct(r)
  {
    r := [];
    var rest := s;
    while rest != {}
      invariant SetOf(r) + rest == s && SetOf(r) !! rest && Distinct(r)
      decreases |rest|
    {
      var x :| x in rest;
      assert SetOf(r + [x]) == SetOf(r) + {x};
      assert forall k :: 0 <= k < |r| ==> r[k] in SetOf(r);
      r, rest := r + [x], rest - {x};
    }
  }

  /** Splits a node's pending names by what the node reports. */
  method Classify(pending: set<nat>, infos: seq<ProcInfo>) returns (stopped: set<nat>, still: seq<nat>)
    ensures stopped == pending * StoppedNames(infos) + (pending - NamesOf(infos))
    ensures SetOf(still) == pending * BusyNames(infos)
  {
    stopped, still := {}, [];
    for k := 0 to |infos|
      invariant stopped == pending * StoppedNames(infos[..k])
      invariant SetOf(still) == pending * BusyNames(infos[..k])
    {
      var p := infos[k];
      NamesGrow(infos, k);
      if p.name in pending {
        if IsStopped(p.state) {
          stopped := stopped + {p.name};
        } else {
          assert SetOf(still + [p.name]) == SetOf(still) + {p.name};
          still := still + [p.name];
        }
      }
    }
    assert infos[..|infos|] == infos;
    stopped := stopped + (pending - NamesOf(infos));
  }

  lemma NamesGrow(infos: seq<ProcInfo>, k: nat)
    requires k < |infos|
    ensures StoppedNames(infos[..k + 1]) == StoppedNames(infos[..k]) +
            if IsStopped(infos[k].state) then {infos[k].name} else {}
    ensures BusyNames(infos[..k + 1]) == BusyNames(infos[..k]) + if IsStopped(infos[k].state) then {}
              else {infos[k].name}
  {
    assert infos[..k + 1] == infos[..k] + [infos[k]];
  }

  /** The body of the loop over pending nodes, for one node. */
  method ConfirmNode(cluster: Cluster, key: Key, configured: bool, names: seq<nat>)
    returns (still: seq<nat>, log: NodeLog)
    requires cluster.Valid() && PendingIn(cluster.cells, key) == SetOf(names)
    modifies cluster
    ensures cluster.Valid() && SamePendingExcept(old(cluster.cells), cluster.cells, key)
    ensures PendingIn(cluster.cells, key) == SetOf(still) == NextPending(SetOf(names), configured, log)
    ensures log.info.Some? ==> Seen(cluster.start, old(cluster.runs), cluster.runs, key, log.info.value)
    ensures Later(old(cluster.runs), cluster.runs)
    ensures SetOf(log.asked) == if log.info.Some? then SetOf(names) * StoppedNames(log.info.value) else {}
    ensures GoneCalled(old(cluster.tallies), cluster.tallies, key, log.asked, log.confirmed)
    ensures cluster.calls == old(cluster.calls) + NodeCalls(key, configured, names, log)
  {
    log := NodeLog(None, [], false);
    assert SetOf([]) == {};
    if names == [] || !configured {
      cluster.Forget(key, {});
      return [], log;
    }
    var r := cluster.GetGroupInfo(key);
    if r.Fault? {
      return names, log;
    }
    ghost var now := cluster.runs;
    still, log := SettleNode(cluster, key, SetOf(names), r.value);
    SeenLonger(cluster.start, old(cluster.runs), old(cluster.runs), now, cluster.runs, key, r.value);
    LaterStill(old(cluster.runs), now, cluster.runs);
  }

  method SettleNode(cluster: Cluster, key: Key, pending: set<nat>, infos: seq<ProcInfo>)
    returns (still: seq<nat>, log: NodeLog)
    requires cluster.Valid() && PendingIn(cluster.cells, key) == pending
    modifies cluster
    ensures cluster.Valid() && SamePendingExcept(old(cluster.cells), cluster.cells, key)
    ensures PendingIn(cluster.cells, key) == SetOf(still) == NextPending(pending, true, log)
    ensures log.info == Some(infos) && SetOf(log.asked) == pending * StoppedNames(infos)
    ensures GoneCalled(old(cluster.tallies), cluster.tallies, key, log.asked, log.confirmed)
    ensures cluster.calls == old(cluster.calls) + ConfirmCalls(key, log.asked, log.confirmed)
    ensures Later(old(cluster.runs), cluster.runs)
  {
    var asked, confirmed;
    still, asked, confirmed := ConfirmStopped(cluster, key, pending, infos);
    log := NodeLog(Some(infos), asked, confirmed);
    ghost var keep := SetOf(still);
    assert pending * keep == keep;
    ghost var now := cluster.runs;
    cluster.Forget(key, keep);
    LaterStill(old(cluster.runs), now, cluster.runs);
  }

  /** The part of it that follows a getGroupInfo reply. */
  method ConfirmStopped(cluster: Cluster, key: Key, pending: set<nat>, infos: seq<ProcInfo>)
    returns (still: seq<nat>, asked: seq<nat>, confirmed: bool)
    requires cluster.Valid() && PendingIn(cluster.cells, key) == pending
    modifies cluster
    ensures cluster.Valid() && SamePending(old(cluster.cells), cluster.cells)
    ensures SetOf(still) ==
            if pending * StoppedNames(infos) == {} || confirmed then pending * BusyNames(infos) else pending
    ensures SetOf(asked) == pending * StoppedNames(infos)
    ensures GoneCalled(old(cluster.tallies), cluster.tallies, key, asked, confirmed)
    ensures cluster.calls == old(cluster.calls) + ConfirmCalls(key, asked, confirmed)
    ensures Later(old(cluster.runs), cluster.runs)
  {
    var stopped, busy := Classify(pending, infos);
    still, asked, confirmed := busy, [], false;
    StoppedIsKnown(infos);
    assert stopped * NamesOf(infos) == pending * StoppedNames(infos) && SetOf([]) == {};
    if stopped != {} {
      asked := Listing(stopped * NamesOf(infos));
      if asked != [] {
        assert asked[0] in SetOf(asked);
        var c := cluster.Confirm(key, asked);
        confirmed := c.Ok?;
        if c.Fault? {
          var again := Listing(stopped * pending);
          still := Joined(busy, again, stopped, pending, infos);
        }
      }
    }
  }

  function Joined(busy: seq<nat>, again: seq<nat>, stopped: set<nat>, pending: set<nat>,
                  infos: seq<ProcInfo>): (r: seq<nat>)
    requires SetOf(busy) == pending * BusyNames(infos) && SetOf(again) == stopped * pending
    requires stopped == pending * StoppedNames(infos) + (pending - NamesOf(infos))
    ensures SetOf(r) == pending
  {
    StoppedIsKnown(infos);
    assert SetOf(busy + again) == SetOf(busy) + SetOf(again);
    busy + again
  }

  lemma StoppedIsKnown(infos: seq<ProcInfo>)
    ensures StoppedNames(infos) + BusyNames(infos) == NamesOf(infos)
  {
  }

  // ----- All nodes -----

  function Held(pending: Pending, node: string): set<nat>
  {
    if node in pending then SetOf(pending[node]) else {}
  }

  /** The engine's pending dictionary for a target is what the protocol runs say is pending. */
  ghost predicate Tracks(cells: Cells, target: string, pending: Pending)
  {
    forall n :: PendingIn(cells, (n, target)) == Held(pending, n)
  }

  ghost predicate OthersKept(cells: Cells, cells': Cells, target: string)
  {
    forall k: Key :: k.1 != target ==> PendingIn(cells', k) == PendingIn(cells, k)
  }

  /** Phase 1 refines a map over nodes: each node's new pending set is a function of its own old set
      and its own replies, and nodes with nothing left are dropped. */
  ghost predicate Confirmed(pending: Pending, after: Pending, clients: set<string>,
                            logs: Logs)
  {
    && logs.Keys == pending.Keys
    && (forall n :: n in after ==> n in pending && after[n] != [])
    && (forall n :: n in pending ==> Held(after, n) == NextPending(SetOf(pending[n]), n in clients, logs[n]))
  }

  /** A confirmation is logged exactly for the removals the nodes acknowledged, and nothing else was done. */
  ghost predicate Vouched(t: Ledger, t': Ledger, target: string, logs: Logs)
  {
    forall k: Key :: TallyIn(t', k) ==
      if k.1 == target && k.0 in logs && logs[k.0].confirmed then Gone(TallyIn(t, k), logs[k.0].asked, true)
          else TallyIn(t, k)
  }

  lemma VouchedPut(t: Ledger, mid: Ledger, t': Ledger, target: string, logs: Logs,
                   node: string, log: NodeLog)
    requires Vouched(t, mid, target, logs) && node !in logs
    requires GoneCalled(mid, t', (node, target), log.asked, log.confirmed)
    ensures Vouched(t, t', target, logs[node := log])
  {
    forall k: Key
      ensures TallyIn(t', k) == if k.1 == target && k.0 in logs[node := log] && logs[node := log][k.0].confirmed
                                then Gone(TallyIn(t, k), logs[node := log][k.0].asked, true) else TallyIn(t, k)
    {
      assert k != (node, target) ==> TallyIn(t', k) == TallyIn(mid, k);
    }
  }

  /** What nodes reported was the state of their groups between these moments. */
  ghost predicate AllSeen(start: Cells, from: Runs, to: Runs, target: string,
                          logs: Logs)
  {
    forall n :: n in logs && logs[n].info.Some? ==> Seen(start, from, to, (n, target), logs[n].info.value)
  }

  lemma AllSeenLonger(start: Cells, a: Runs, b: Runs, c: Runs,
                      d: Runs, target: string, logs: Logs)
    requires AllSeen(start, b, c, target, logs) && Later(a, b) && Later(c, d)
    ensures AllSeen(start, a, d, target, logs)
  {
    forall n | n in logs && logs[n].info.Some?
      ensures Seen(start, a, d, (n, target), logs[n].info.value)
    {
      SeenLonger(start, a, b, c, d, (n, target), logs[n].info.value);
    }
  }

  lemma AllSeenPut(start: Cells, from: Runs, mid: Runs, to: Runs,
                   target: string, logs: Logs, node: string, log: NodeLog)
    requires AllSeen(start, from, mid, target, logs) && Later(from, mid) && Later(mid, to)
    requires log.info.Some? ==> Seen(start, mid, to, (node, target), log.info.value)
    ensures AllSeen(start, from, to, target, logs[node := log]) && Later(from, to)
  {
    LaterStill(from, mid, to);
    AllSeenLonger(start, from, from, mid, to, target, logs);
    if log.info.Some? { SeenLonger(start, from, mid, to, to, (node, target), log.info.value); }
  }

  /** Phase 1 placed these calls and no others. */
  ghost predicate PhaseOneCalls(pending: Pending, clients: set<string>, logs: Logs, target: string,
                                before: multiset<Call>, after: multiset<Call>)
  {
    forall c: Call :: after[c] == before[c] + PhaseOneCount(pending, clients, logs, target, c)
  }

  ghost function PhaseOneCount(pending: Pending, clients: set<string>, logs: Logs, target: string, c: Call): nat
  {
    var n := c.key.0;
    if c.key.1 == target && n in logs && n in pending then NodeCalls(c.key, n in clients, pending[n], logs[n])[c] else 0
  }

  lemma PhaseOnePut(pending: Pending, clients: set<string>, logs: Logs, target: string, before: multiset<Call>,
                    mid: multiset<Call>, after: multiset<Call>, node: string, log: NodeLog)
    requires PhaseOneCalls(pending, clients, logs, target, before, mid) && node in pending && node !in logs
    requires after == mid + NodeCalls((node, target), node in clients, pending[node], log)
    ensures PhaseOneCalls(pending, clients, logs[node := log], target, before, after)
  {
    forall c: Call
      ensures after[c] == before[c] + PhaseOneCount(pending, clients, logs[node := log], target, c)
    {
      assert mid[c] == before[c] + PhaseOneCount(pending, clients, logs, target, c);
    }
  }

  method ConfirmPendingPerNode(cluster: Cluster, target: string, clients: set<string>, pending: Pending)
    returns (after: Pending, logs: Logs)
    requires cluster.Valid() && Tracks(cluster.cells, target, pending)
    modifies cluster
    ensures cluster.Valid() && Tracks(cluster.cells, target, after)
    ensures OthersKept(old(cluster.cells), cluster.cells, target)
    ensures Confirmed(pending, after, clients, logs)
    ensures Vouched(old(cluster.tallies), cluster.tallies, target, logs)
    ensures PhaseOneCalls(pending, clients, logs, target, old(cluster.calls), cluster.calls)
    ensures AllSeen(cluster.start, old(cluster.runs), cluster.runs, target, logs)
    ensures Later(old(cluster.runs), cluster.runs)
  {
    after, logs := map[], map[];
    var rest := pending.Keys;
    ghost var current := pending;
    while rest != {}
      invariant cluster.Valid() && OthersKept(old(cluster.cells), cluster.cells, target)
      invariant Tracks(cluster.cells, target, current)
      invariant Halfway(pending, after, rest, current, clients, logs)
      invariant Vouched(old(cluster.tallies), cluster.tallies, target, logs)
      invariant PhaseOneCalls(pending, clients, logs, target, old(cluster.calls), cluster.calls)
      invariant AllSeen(cluster.start, old(cluster.runs), cluster.runs, target, logs)
      invariant Later(old(cluster.runs), cluster.runs)
      decreases |rest|
    {
      var node :| node in rest;
      ghost var before, tally, earlier := cluster.cells, cluster.tallies, cluster.runs;
      ghost var placed := cluster.calls;
      assert Held(current, node) == SetOf(pending[node]);
      assert PendingIn(cluster.cells, (node, target)) == Held(current, node);
      var still, log := ConfirmNode(cluster, (node, target), node in clients, pending[node]);
      TracksPut(before, cluster.cells, target, current, node, still);
      OthersKeptTransitive(old(cluster.cells), before, cluster.cells, target);
      HalfwayPut(pending, after, rest, current, clients, logs, node, still, log);
      PhaseOnePut(pending, clients, logs, target, old(cluster.calls), placed, cluster.calls, node, log);
      AllSeenPut(cluster.start, old(cluster.runs), earlier, cluster.runs, target, logs, node, log);
      VouchedPut(old(cluster.tallies), tally, cluster.tallies, target, logs, node, log);
      rest, current := rest - {node}, Put(current, node, still);
      logs := logs[node := log];
      after := Put(after, node, still);
    }
    HalfwayDone(pending, after, current, clients, logs);
  }

  function Put(m: Pending, node: string, names: seq<nat>): Pending
  {
    if names == [] then m - {node} else m[node := names]
  }

  lemma TracksPut(cells: Cells, cells': Cells, target: string, m: Pending,
                  node: string, names: seq<nat>)
    requires Tracks(cells, target, m) && SamePendingExcept(cells, cells', (node, target))
    requires PendingIn(cells', (node, target)) == SetOf(names)
    ensures Tracks(cells', target, Put(m, node, names)) && OthersKept(cells, cells', target)
  {
    forall n
      ensures PendingIn(cells', (n, target)) == Held(Put(m, node, names), n)
    {
      if n != node { assert PendingIn(cells', (n, target)) == PendingIn(cells, (n, target)); }
    }
  }

  lemma OthersKeptTransitive(a: Cells, b: Cells, c: Cells, target: string)
    requires OthersKept(a, b, target) && OthersKept(b, c, target)
    ensures OthersKept(a, c, target)
  {
  }

  /** The loop with the nodes in `rest` still to do; `current` is what is pending at this point. */
  ghost predicate Halfway(pending: Pending, after: Pending, rest: set<string>,
                          current: Pending, clients: set<string>, logs: Logs)
  {
    && rest <= pending.Keys && logs.Keys == pending.Keys - rest
    && (forall n :: n in rest ==> n in current && current[n] == pending[n] && n !in after)
    && (forall n :: n !in rest ==> (n in current <==> n in after))
    && (forall n :: n in after ==> current[n] == after[n] && n in pending && after[n] != [])
    && Logged(pending, after, clients, logs)
  }

  ghost predicate Logged(pending: Pending, after: Pending, clients: set<string>,
                         logs: Logs)
    requires logs.Keys <= pending.Keys
  {
    forall n :: n in logs ==> Held(after, n) == NextPending(SetOf(pending[n]), n in clients, logs[n])
  }

  lemma LoggedPut(pending: Pending, after: Pending, clients: set<string>,
                  logs: Logs, node: string, still: seq<nat>, log: NodeLog)
    requires logs.Keys <= pending.Keys && Logged(pending, after, clients, logs) && node in pending && node !in logs
    requires SetOf(still) == NextPending(SetOf(pending[node]), node in clients, log)
    ensures Logged(pending, Put(after, node, still), clients, logs[node := log])
  {
    var after' := Put(after, node, still);
    assert SetOf([]) == {};
    assert Held(after', node) == SetOf(still);
    assert forall n :: n in logs ==> Held(after', n) == Held(after, n);
  }

  lemma HalfwayPut(pending: Pending, after: Pending, rest: set<string>,
                   current: Pending, clients: set<string>, logs: Logs,
                   node: string, still: seq<nat>, log: NodeLog)
    requires Halfway(pending, after, rest, current, clients, logs) && node in rest
    requires SetOf(still) == NextPending(SetOf(pending[node]), node in clients, log)
    ensures Halfway(pending, Put(after, node, still), rest - {node}, Put(current, node, still), clients,
              logs[node := log])
  {
    LoggedPut(pending, after, clients, logs, node, still, log);
  }

  lemma HalfwayDone(pending: Pending, after: Pending, current: Pending,
                    clients: set<string>, logs: Logs)
    requires Halfway(pending, after, {}, current, clients, logs)
    ensures current == after && Confirmed(pending, after, clients, logs)
  {
    assert current.Keys == after.Keys;
  }
}
