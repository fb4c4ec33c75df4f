/** The daemon's view of the nodes: remote calls whose replies may be lost, nodes that may be down, and
    processes and nodes that change at any moment. A group is addressed by node and target, since no two
    targets share a node and a program. The ghost runs record, group by group, every protocol step ever
    taken, so each reachable state of the whole system is the end of a run of module Protocol. */
module Cluster {
  import opened Names
  import opened Group
  import opened Plugin
  import opened Protocol
  import opened Agreement
  import opened Tallies

  type Key = (string, string)

  type Cells = map<Key, Cell>

  type Runs = map<Key, seq<Step>>

  type Ledger = map<Key, Tally>

  /** The names the daemon has pending for a group. */
  ghost function PendingIn(cells: Cells, k: Key): set<nat>
  {
    if k in cells then cells[k].pending else {}
  }

  ghost predicate SamePending(cells: Cells, cells': Cells)
  {
    forall k :: PendingIn(cells', k) == PendingIn(cells, k)
  }

  ghost predicate SamePendingExcept(cells: Cells, cells': Cells, key: Key)
  {
    forall k :: k != key ==> PendingIn(cells', k) == PendingIn(cells, k)
  }

  // ----- What calls did -----

  /** A group's tally; a group that is not there has none. */
  ghost function TallyIn(tallies: Ledger, k: Key): Tally { if k in tallies then tallies[k] else ZERO }

  /** A scaleUp call that was answered was executed; one that was not may have been, or not. */
  ghost predicate UpCalled(t: Ledger, t': Ledger, key: Key, ok: bool)
  {
    (key in t && t' == t[key := Up(t[key], ok)]) || (!ok && t' == t)
  }

  /** A scaleDown call that was answered also named these processes. */
  ghost predicate DownCalled(t: Ledger, t': Ledger, key: Key, names: seq<nat>, ok: bool)
  {
    (key in t && t' == t[key := Down(t[key], multiset(names), ok)]) || (!ok && t' == t)
  }

  /** confirmScaleDown for these names. */
  ghost predicate GoneCalled(t: Ledger, t': Ledger, key: Key, names: seq<nat>, ok: bool)
  {
    if ok then key in t && t' == t[key := Gone(t[key], names, true)] else t' == t
  }

  // ----- What is recorded -----

  /** The group's present state is the end of its recorded run, and its tally is that run's. */
  ghost predicate Traced(start: Cells, runs: Runs, cells: Cells, tallies: Ledger, k: Key)
    requires k in start && k in runs && k in cells && k in tallies
  {
    IsRun(start[k], runs[k]) && After(start[k], runs[k]) == cells[k] && TallyOf(start[k], runs[k]) == tallies[k]
  }

  ghost predicate Recorded(start: Cells, runs: Runs, cells: Cells, tallies: Ledger)
  {
    && start.Keys == runs.Keys == cells.Keys == tallies.Keys
    && forall k {:trigger Traced(start, runs, cells, tallies, k)} :: k in start ==>
        Traced(start, runs, cells, tallies, k)
  }

  // ----- Time -----

  ghost predicate Longer(runs: Runs, runs': Runs, k: Key)
    requires k in runs && k in runs'
  {
    runs[k] <= runs'[k]
  }

  /** runs' is a later moment than runs. */
  ghost predicate Later(runs: Runs, runs': Runs)
  {
    runs.Keys == runs'.Keys && forall k {:trigger Longer(runs, runs', k)} :: k in runs ==> Longer(runs, runs', k)
  }

  lemma LaterOneStep(runs: Runs, key: Key, s: Step)
    requires key in runs
    ensures Later(runs, runs[key := runs[key] + [s]])
  {
  }

  lemma LaterStill(a: Runs, b: Runs, c: Runs)
    requires Later(a, b) && Later(b, c)
    ensures Later(a, c)
  {
    forall k | k in a
      ensures Longer(a, c, k)
    {
      assert Longer(a, b, k) && Longer(b, c, k);
    }
  }

  /** The group was as described at some moment from `from` to `to`. */
  ghost predicate Seen(start: Cells, from: Runs, to: Runs, key: Key, infos: seq<ProcInfo>)
  {
    key in start && key in from && key in to && exists k :: SeenAt(start[key], |from[key]|, to[key], k, infos)
  }

  ghost predicate SeenAt(c: Cell, from: nat, run: seq<Step>, k: nat, infos: seq<ProcInfo>)
  {
    from <= k <= |run| && ReportsGroup(At(c, run, k).view, infos)
  }

  lemma SeenNow(start: Cells, from: Runs, now: Runs, to: Runs, key: Key,
                v: GroupView, infos: seq<ProcInfo>)
    requires key in start && key in now && After(start[key], now[key]).view == v && ReportsGroup(v, infos)
    requires Later(from, now) && Later(now, to)
    ensures Seen(start, from, to, key, infos)
  {
    assert Longer(from, now, key) && Longer(now, to, key);
    var k := |now[key]|;
    assert to[key][..k] == now[key];
    assert SeenAt(start[key], |from[key]|, to[key], k, infos);
  }

  lemma SeenAtLonger(c: Cell, from: nat, from': nat, run: seq<Step>, run': seq<Step>, k: nat, infos: seq<ProcInfo>)
    requires SeenAt(c, from, run, k, infos) && from' <= from && run <= run'
    ensures SeenAt(c, from', run', k, infos)
  {
    assert run'[..k] == run[..k];
    assert At(c, run', k) == At(c, run, k);
  }

  /** What was seen in a span of time was seen in every longer one. */
  lemma SeenLonger(start: Cells, a: Runs, b: Runs, c: Runs,
                   d: Runs, key: Key, infos: seq<ProcInfo>)
    requires Seen(start, b, c, key, infos) && Later(a, b) && Later(c, d)
    ensures Seen(start, a, d, key, infos)
  {
    var k :| SeenAt(start[key], |b[key]|, c[key], k, infos);
    assert Longer(a, b, key) && Longer(c, d, key);
    SeenAtLonger(start[key], |b[key]|, |a[key]|, c[key], d[key], k, infos);
  }

  /** Off one key, nothing has changed. */
  ghost predicate SameBut<T(!new)>(m: map<Key, T>, m': map<Key, T>, key: Key)
  {
    m'.Keys == m.Keys && forall k :: k in m && k != key ==> m'[k] == m[k]
  }

  lemma RecordStep(start: Cells, runs: Runs, cells: Cells, tallies: Ledger, key: Key, s: Step)
    requires Recorded(start, runs, cells, tallies) && key in cells && Enabled(cells[key], s)
    ensures Recorded(start, runs[key := runs[key] + [s]], cells[key := Apply(cells[key], s)],
                     tallies[key := Counted(cells[key], s, tallies[key])])
  {
    RecordChange(start, runs, cells, tallies, runs[key := runs[key] + [s]], cells[key := Apply(cells[key], s)],
                 tallies[key := Counted(cells[key], s, tallies[key])], key, s);
  }

  lemma RecordChange(start: Cells, runs: Runs, cells: Cells, tallies: Ledger,
                     runs': Runs, cells': Cells, tallies': Ledger, key: Key, s: Step)
    requires Recorded(start, runs, cells, tallies) && key in cells && Enabled(cells[key], s)
    requires SameBut(runs, runs', key) && SameBut(cells, cells', key) && SameBut(tallies, tallies', key)
    requires runs'[key] == runs[key] + [s] && cells'[key] == Apply(cells[key], s)
    requires tallies'[key] == Counted(cells[key], s, tallies[key])
    ensures Recorded(start, runs', cells', tallies')
  {
    forall k | k in start
      ensures Traced(start, runs', cells', tallies', k)
    {
      if k == key {
        KeyTraced(start, runs, cells, tallies, runs', cells', tallies', k, s);
      } else {
        OtherTraced(start, runs, cells, tallies, runs', cells', tallies', k);
      }
    }
  }

  lemma TracedStep(c: Cell, run: seq<Step>, now: Cell, t: Tally, s: Step, longer: seq<Step>)
    requires IsRun(c, run) && After(c, run) == now && TallyOf(c, run) == t && Enabled(now, s) && longer == run + [s]
    ensures IsRun(c, longer) && After(c, longer) == Apply(now, s) && TallyOf(c, longer) == Counted(now, s, t)
  {
    ExtendRun(c, run, s);
    TallyExtend(c, run, s);
  }

  lemma KeyTraced(start: Cells, runs: Runs, cells: Cells, tallies: Ledger,
                  runs': Runs, cells': Cells, tallies': Ledger, k: Key, s: Step)
    requires Recorded(start, runs, cells, tallies) && k in start && k in runs' && k in cells' && k in tallies'
    requires Enabled(cells[k], s) && runs'[k] == runs[k] + [s]
    requires cells'[k] == Apply(cells[k], s) && tallies'[k] == Counted(cells[k], s, tallies[k])
    ensures Traced(start, runs', cells', tallies', k)
  {
    assert Traced(start, runs, cells, tallies, k);
    TracedStep(start[k], runs[k], cells[k], tallies[k], s, runs'[k]);
  }

  lemma OtherTraced(start: Cells, runs: Runs, cells: Cells, tallies: Ledger,
                    runs': Runs, cells': Cells, tallies': Ledger, k: Key)
    requires Recorded(start, runs, cells, tallies) && k in start && k in runs' && k in cells' && k in tallies'
    requires runs'[k] == runs[k] && cells'[k] == cells[k] && tallies'[k] == tallies[k]
    ensures Traced(start, runs', cells', tallies', k)
  {
    assert Traced(start, runs, cells, tallies, k);
  }

  // ----- What was removed -----

  /** Between these moments confirmScaleDown took this process out of its group. */
  ghost predicate Removed(c: Cell, from: nat, run: seq<Step>, x: nat)
  {
    exists k :: from <= k && LeavesConfirmed(c, run, k, x)
  }

  ghost predicate AllRemoved(start: Cells, from: Runs, to: Runs, key: Key, names: seq<nat>)
  {
    && key in start && key in from && key in to
    && forall x {:trigger Removed(start[key], |from[key]|, to[key], x)} ::
         x in names ==> Removed(start[key], |from[key]|, to[key], x)
  }

  /** A removal that was acknowledged was carried out during the call. */
  lemma AcknowledgedIsRemoved(start: Cells, runs: Runs, cells: Cells, tallies: Ledger,
                              runs': Runs, cells': Cells, tallies': Ledger, key: Key, names: seq<nat>)
    requires Recorded(start, runs, cells, tallies) && Recorded(start, runs', cells', tallies') && Later(runs, runs')
    requires key in tallies && tallies'[key].gone == tallies[key].gone + multiset(names)
    ensures AllRemoved(start, runs, runs', key, names)
  {
    assert Traced(start, runs, cells, tallies, key) && Traced(start, runs', cells', tallies', key);
    assert Longer(runs, runs', key);
    var n := |runs[key]|;
    assert runs'[key][..n] == runs[key];
    forall x | x in names
      ensures Removed(start[key], n, runs'[key], x)
    {
      GoneWasRemoved(start[key], runs'[key], n, x);
    }
  }

  /** What the environment does to a group is no call and leaves pending names alone. */
  lemma QuietStep(cells: Cells, tallies: Ledger, key: Key, s: Step)
    requires key in cells && key in tallies && (s.Env? || s.Restart?)
    ensures SamePending(cells, cells[key := Apply(cells[key], s)])
    ensures tallies[key := Counted(cells[key], s, tallies[key])] == tallies
  {
  }

  lemma ScaleUpApplied(cells: Cells, tallies: Ledger, key: Key, steps: nat, end: End)
    requires key in cells && key in tallies
    ensures var c, s := cells[key], Step.ScaleUp(steps, end);
            var (after, reply) := AfterScaleUp(c.view, 1, steps);
            && Apply(c, s).view == (if end.Crashed? then Restarted(after) else after)
            && SamePending(cells, cells[key := Apply(c, s)])
            && UpCalled(tallies, tallies[key := Counted(c, s, tallies[key])], key, end.Replied? && reply.Some?)
  {
  }

  lemma ConfirmApplied(cells: Cells, tallies: Ledger, key: Key, names: seq<nat>, steps: nat, end: End)
    requires key in cells && key in tallies
    ensures var c, s := cells[key], Step.Confirm(names, steps, end);
            var (after, removed) := AfterConfirm(c.view, names, steps);
            && Apply(c, s).view == (if end.Crashed? then Restarted(after) else after)
            && SamePending(cells, cells[key := Apply(c, s)])
            && GoneCalled(tallies, tallies[key := Counted(c, s, tallies[key])], key, names, end.Replied? && removed)
  {
  }

  lemma ScaleDownApplied(cells: Cells, tallies: Ledger, key: Key, s: Step)
    requires key in cells && key in tallies && s.ScaleDown? && IsTop(cells[key].view, 1, s.top)
    ensures var c := cells[key];
            var after := c.view.(procs := s.procs);
            && Apply(c, s).view == (if s.end.Crashed? then Restarted(after) else after)
            && Apply(c, s).pending == c.pending + (if s.end.Replied? then SetOf(Reported(c.view.procs, s.top)) else {})
            && SamePendingExcept(cells, cells[key := Apply(c, s)], key)
            && DownCalled(tallies, tallies[key := Counted(c, s, tallies[key])], key, Reported(c.view.procs, s.top),
                          s.end.Replied?)
  {
    ReportedOnce(cells[key].view.procs, s.top);
    DeliveredIsReported(cells[key], s);
  }

  lemma RecordDrop(start: Cells, runs: Runs, cells: Cells, tallies: Ledger, key: Key, keep: set<nat>)
    requires Recorded(start, runs, cells, tallies) && key in cells
    ensures Recorded(start, runs[key := runs[key] + [Drop(keep)]],
                     cells[key := cells[key].(pending := cells[key].pending * keep)], tallies)
  {
    RecordStep(start, runs, cells, tallies, key, Drop(keep));
    assert tallies[key := tallies[key]] == tallies;
  }

  // ----- What was called -----

  datatype Op = Asking | Raising | Lowering | Removing   // getGroupInfo, scaleUp(1), scaleDown(1), confirmScaleDown

  /** One remote call the daemon placed, and whether it was answered. */
  datatype Call = Call(key: Key, op: Op, ok: bool)

  class Cluster {
    var groups: map<Key, GroupView>
    ghost var cells: Cells        // the same groups with what is pending for each
    ghost var runs: Runs    // how each came about
    ghost var tallies: Ledger     // and what calls did on the way
    ghost var calls: multiset<Call>        // every call the daemon placed
    ghost const start: Cells

    ghost predicate Valid()
      reads this
    {
      && Recorded(start, runs, cells, tallies) && groups.Keys == cells.Keys
      && forall k :: k in cells ==> cells[k].view == groups[k]
    }

    constructor (groups: map<Key, GroupView>)
      ensures Valid() && this.groups == groups
      ensures start == cells == map k | k in groups :: Cell(groups[k], {})
    {
      this.groups := groups;
      cells := map k | k in groups :: Cell(groups[k], {});
      start := map k | k in groups :: Cell(groups[k], {});
      runs := map k | k in groups :: [];
      tallies := map k | k in groups :: ZERO;
      calls := multiset{};
    }

    /** One protocol step of one group. */
    method Advance(key: Key, ghost s: Step, v: GroupView)
      requires Valid() && key in groups && Enabled(cells[key], s) && v == Apply(cells[key], s).view
      modifies this`groups, this`cells, this`runs, this`tallies
      ensures Valid() && cells == old(cells[key := Apply(cells[key], s)])
      ensures tallies == old(tallies[key := Counted(cells[key], s, tallies[key])])
      ensures groups == old(groups[key := v])
      ensures Later(old(runs), runs)
    {
      LaterOneStep(runs, key, s);
      RecordStep(start, runs, cells, tallies, key, s);
      Store(key, runs[key := runs[key] + [s]], Apply(cells[key], s), Counted(cells[key], s, tallies[key]), v);
    }

    method Store(key: Key, ghost longer: Runs, ghost c: Cell, ghost t: Tally, v: GroupView)
      requires Valid() && key in groups && c.view == v
      requires Recorded(start, longer, cells[key := c], tallies[key := t])
      modifies this`groups, this`cells, this`runs, this`tallies
      ensures Valid() && groups == old(groups[key := v]) && cells == old(cells[key := c])
                && tallies == old(tallies[key := t])
      ensures runs == longer
    {
      groups := groups[key := v];
      runs := longer;
      cells := cells[key := c];
      tallies := tallies[key := t];
    }

    method Crash(key: Key)
      requires Valid() && key in groups
      modifies this`groups, this`cells, this`runs, this`tallies
      ensures Valid() && SamePending(old(cells), cells) && tallies == old(tallies)
      ensures Later(old(runs), runs)
    {
      QuietStep(cells, tallies, key, Restart);
      Advance(key, Restart, Restarted(groups[key]));
    }

    method ChangeStates(key: Key, procs: map<nat, ProcState>)
      requires Valid() && key in groups && procs.Keys == groups[key].procs.Keys
      modifies this`groups, this`cells, this`runs, this`tallies
      ensures Valid() && SamePending(old(cells), cells) && tallies == old(tallies)
      ensures Later(old(runs), runs)
    {
      QuietStep(cells, tallies, key, Env(procs));
      Advance(key, Env(procs), groups[key].(procs := procs));
    }

    /** One thing the environment may do. */
    method Disturb(key: Key)
      requires Valid() && key in groups
      modifies this`groups, this`cells, this`runs, this`tallies
      ensures Valid() && SamePending(old(cells), cells) && tallies == old(tallies)
      ensures Later(old(runs), runs)
    {
      if * {
        Crash(key);
      } else {
        var procs: map<nat, ProcState> :| procs.Keys == groups[key].procs.Keys;
        ChangeStates(key, procs);
      }
    }

    /** Anything the environment may do between two actions of the daemon. */
    method Interfere()
      requires Valid()
      modifies this`groups, this`cells, this`runs, this`tallies
      ensures Valid() && SamePending(old(cells), cells) && tallies == old(tallies)
      ensures Later(old(runs), runs)
    {
      var n: nat := *;
      while n > 0
        invariant Valid() && SamePending(old(cells), cells) && tallies == old(tallies)
        invariant Later(old(runs), runs)
      {
        n := n - 1;
        var keys := groups.Keys;
        if keys != {} {
          var key: Key :| key in keys;
          ghost var before := runs;
          Disturb(key);
          LaterStill(old(runs), before, runs);
        }
      }
    }

    method GetGroupInfo(key: Key) returns (r: Reply<seq<ProcInfo>>)
      requires Valid()
      modifies this
      ensures calls == old(calls) + multiset{Call(key, Asking, r.Ok?)}
      ensures Valid() && SamePending(old(cells), cells) && tallies == old(tallies)
      ensures Later(old(runs), runs)
      ensures r.Ok? ==> Seen(start, old(runs), runs, key, r.value)
    {
      Interfere();
      var reached: bool := *;
      if key !in groups || !reached {
        calls := calls + multiset{Call(key, Asking, false)};
        return Fault(Failed);
      }
      var infos := Describe(groups[key], groups[key].template, groups[key].procs);
      ghost var now := runs;
      assert Traced(start, runs, cells, tallies, key);
      Interfere();
      SeenNow(start, old(runs), now, runs, key, After(start[key], now[key]).view, infos);
      LaterStill(old(runs), now, runs);
      var replied: bool := *;
      r := if replied then Ok(infos) else Fault(Failed);
      calls := calls + multiset{Call(key, Asking, r.Ok?)};
    }

    /** What the node does with scaleUp(1), scaleDown(1) and confirmScaleDown when the call gets there. */
    method PerformScaleUp(key: Key) returns (r: Option<seq<nat>>)
      requires Valid() && key in cells && cells[key].pending == {}
      modifies this`groups, this`cells, this`runs, this`tallies
      ensures Valid() && SamePending(old(cells), cells)
      ensures UpCalled(old(tallies), tallies, key, r.Some?)
      ensures Later(old(runs), runs)
    {
      var steps: nat, end: End := *, *;
      var (after, reply) := AfterScaleUp(groups[key], 1, steps);
      ScaleUpApplied(cells, tallies, key, steps, end);
      Advance(key, Step.ScaleUp(steps, end), if end.Crashed? then Restarted(after) else after);
      return if end.Replied? then reply else None;
    }

    method PerformScaleDown(key: Key) returns (r: Option<seq<nat>>)
      requires Valid() && key in cells
      modifies this`groups, this`cells, this`runs, this`tallies
      ensures Valid() && SamePendingExcept(old(cells), cells, key) && key in cells
      ensures DownCalled(old(tallies), tallies, key, if r.Some? then r.value else [], r.Some?)
      ensures Later(old(runs), runs)
      ensures cells[key].pending == old(cells[key].pending) + if r.Some? then SetOf(r.value) else {}
    {
      var v, end: End := groups[key], *;
      var procs, stopping := StopHighest(v, v.procs, v.template, 1);
      ghost var top :| StopsTop(v, 1, top, procs, stopping);
      ghost var s := Step.ScaleDown(top, procs, end);
      ScaleDownApplied(cells, tallies, key, s);
      var after := v.(procs := procs);
      Advance(key, s, if end.Crashed? then Restarted(after) else after);
      return if end.Replied? then Some(stopping) else None;
    }

    method PerformConfirm(key: Key, names: seq<nat>) returns (done: bool)
      requires Valid() && key in cells && names != [] && Distinct(names) && SetOf(names) <= cells[key].pending
      modifies this`groups, this`cells, this`runs, this`tallies
      ensures Valid() && SamePending(old(cells), cells)
      ensures GoneCalled(old(tallies), tallies, key, names, done)
      ensures Later(old(runs), runs)
    {
      var steps: nat, end: End := *, *;
      var (after, removed) := AfterConfirm(groups[key], names, steps);
      ConfirmApplied(cells, tallies, key, names, steps, end);
      Advance(key, Step.Confirm(names, steps, end), if end.Crashed? then Restarted(after) else after);
      return end.Replied? && removed;
    }

    /** scaleUp(1). A fault says nothing about whether the call took effect. */
    method ScaleUp(key: Key) returns (r: Reply<seq<nat>>)
      requires Valid() && PendingIn(cells, key) == {}
      modifies this
      ensures calls == old(calls) + multiset{Call(key, Raising, r.Ok?)}
      ensures Valid() && SamePending(old(cells), cells)
      ensures UpCalled(old(tallies), tallies, key, r.Ok?)
      ensures Later(old(runs), runs)
    {
      Interfere();
      var reached: bool := *;
      if key !in groups || !reached {
        calls := calls + multiset{Call(key, Raising, false)};
        return Fault(Failed);
      }
      ghost var before := runs;
      var reply := PerformScaleUp(key);
      ghost var after := runs;
      Interfere();
      LaterStill(before, after, runs);
      LaterStill(old(runs), before, runs);
      r := if reply.Some? then Ok(reply.value) else Fault(Failed);
      calls := calls + multiset{Call(key, Raising, r.Ok?)};
    }

    /** scaleDown(1). */
    method ScaleDown(key: Key) returns (r: Reply<seq<nat>>)
      requires Valid()
      modifies this
      ensures calls == old(calls) + multiset{Call(key, Lowering, r.Ok?)}
      ensures Valid() && SamePendingExcept(old(cells), cells, key)
      ensures DownCalled(old(tallies), tallies, key, if r.Ok? then r.value else [], r.Ok?)
      ensures Later(old(runs), runs)
      ensures PendingIn(cells, key) == PendingIn(old(cells), key) + if r.Ok? then SetOf(r.value) else {}
    {
      Interfere();
      var reached: bool := *;
      if key !in groups || !reached {
        calls := calls + multiset{Call(key, Lowering, false)};
        return Fault(Failed);
      }
      ghost var before := runs;
      var reply := PerformScaleDown(key);
      ghost var after := runs;
      Interfere();
      LaterStill(before, after, runs);
      LaterStill(old(runs), before, runs);
      r := if reply.Some? then Ok(reply.value) else Fault(Failed);
      calls := calls + multiset{Call(key, Lowering, r.Ok?)};
    }

    /** confirmScaleDown. */
    method Confirm(key: Key, names: seq<nat>) returns (r: Reply<bool>)
      requires Valid() && names != [] && Distinct(names) && SetOf(names) <= PendingIn(cells, key)
      modifies this
      ensures calls == old(calls) + multiset{Call(key, Removing, r.Ok?)}
      ensures Valid() && SamePending(old(cells), cells)
      ensures GoneCalled(old(tallies), tallies, key, names, r.Ok?)
      ensures Later(old(runs), runs) && (r.Ok? ==> AllRemoved(start, old(runs), runs, key, names))
    {
      ghost var runs0, cells0, tallies0 := runs, cells, tallies;
      Interfere();
      var reached: bool := *;
      if key !in groups || !reached {
        calls := calls + multiset{Call(key, Removing, false)};
        return Fault(Failed);
      }
      ghost var before := runs;
      var done := PerformConfirm(key, names);
      ghost var after := runs;
      Interfere();
      LaterStill(before, after, runs);
      LaterStill(old(runs), before, runs);
      r := if done then Ok(true) else Fault(Failed);
      if done { AcknowledgedIsRemoved(start, runs0, cells0, tallies0, runs, cells, tallies, key, names); }
      calls := calls + multiset{Call(key, Removing, r.Ok?)};
    }

    /** The daemon forgets all but some pending names of one group. */
    ghost method Forget(key: Key, keep: set<nat>)
      requires Valid()
      modifies this`runs, this`cells
      ensures Later(old(runs), runs)
      ensures Valid() && SamePendingExcept(old(cells), cells, key)
      ensures PendingIn(cells, key) == PendingIn(old(cells), key) * keep
    {
      if key in cells {
        RecordDrop(start, runs, cells, tallies, key, keep);
        LaterOneStep(runs, key, Drop(keep));
        runs := runs[key := runs[key] + [Drop(keep)]];
        cells := cells[key := cells[key].(pending := cells[key].pending * keep)];
      }
    }

    /** The daemon drops the whole state of some targets. */
    ghost method ForgetTargets(names: set<string>)
      requires Valid()
      modifies this`runs, this`cells
      ensures Valid() && Later(old(runs), runs)
      ensures forall k: Key :: PendingIn(cells, k) == if k.1 in names then {} else PendingIn(old(cells), k)
    {
      var rest := set k | k in cells && k.1 in names;
      while rest != {}
        invariant Valid() && rest <= cells.Keys
        invariant forall k :: k in rest ==> k.1 in names
        invariant forall k :: k in cells && k.1 in names && k !in rest ==> PendingIn(cells, k) == {}
        invariant forall k: Key :: k.1 !in names ==> PendingIn(cells, k) == PendingIn(old(cells), k)
        invariant Later(old(runs), runs)
        decreases |rest|
      {
        var k :| k in rest;
        ghost var before := runs;
        Forget(k, {});
        LaterStill(old(runs), before, runs);
        rest := rest - {k};
      }
    }
  }

  /** A scaleDown(1) reply names one process at most. */
  lemma ReportedOnce(procs: map<nat, ProcState>, top: seq<nat>)
    requires |top| <= 1 && forall k :: 0 <= k < |top| ==> top[k] in procs
    ensures multiset(SetOf(Reported(procs, top))) == multiset(Reported(procs, top))
  {
    if |top| == 1 {
      assert top[..0] == [] && Reported(procs, top[..0]) == [];
      assert SetOf([top[0]]) == {top[0]} && SetOf([]) == {};
      assert Reported(procs, top) == [] || Reported(procs, top) == [top[0]];
    } else {
      assert SetOf([]) == {};
    }
  }

  lemma DeliveredIsReported(c: Cell, s: Step)
    requires s.ScaleDown? && IsTop(c.view, 1, s.top)
    ensures Delivered(c, s) == if s.end.Replied? then SetOf(Reported(c.view.procs, s.top)) else {}
  {
    ReportedMembers(c.view.procs, s.top);
  }

  lemma ExtendRun(c: Cell, run: seq<Step>, s: Step)
    requires IsRun(c, run) && Enabled(After(c, run), s)
    ensures IsRun(c, run + [s]) && After(c, run + [s]) == Apply(After(c, run), s)
  {
    var longer := run + [s];
    assert longer[..|run|] == run;
    forall k | 0 <= k < |longer|
      ensures Enabled(At(c, longer, k), longer[k])
    {
      assert k < |run| ==> longer[..k] == run[..k] && Enabled(At(c, run, k), run[k]);
    }
  }

  /** In every reachable state of daemon, nodes and environment: a group that started out agreed, and
      whose history has no bad crash and no bad scaleDown, is contiguous, and of the names pending
      for it only the top process can still be there. */
  lemma GroupsStayGood(c: Cluster, key: Key)
    requires c.Valid() && key in c.groups && Initial(c.start[key])
    requires forall j :: 0 <= j < |c.runs[key]| ==> Benign(At(c.start[key], c.runs[key], j), c.runs[key][j])
    ensures Contiguous(c.groups[key].procs)
    ensures c.cells[key].pending * c.groups[key].procs.Keys <= {|c.groups[key].procs| - 1}
  {
    var first, run := c.start[key], c.runs[key];
    assert Traced(c.start, c.runs, c.cells, c.tallies, key);
    GoodAfter(first, run);
    PendingInGroupIsTop(After(first, run));
  }

  /** Disk, memory and configuration list agree exactly when, in the group's history, the last write was
      followed up or a crash came after it, and no deleted process is left in the list; and something can
      make a live process be missing from disk exactly when the last write was that of a confirmScaleDown
      that was not followed up. */
  lemma GroupsSettledExactly(c: Cluster, key: Key)
    requires c.Valid() && key in c.groups && Initial(c.start[key])
    requires forall j :: 0 <= j < |c.runs[key]| ==> Benign(At(c.start[key], c.runs[key], j), c.runs[key][j])
    ensures var v, first, run := c.groups[key], c.start[key], c.runs[key];
            && (v.disk == |v.procs| && v.configs == Range(0, |v.procs|) <==>
                Lag(first, run) == 0 && Stale(first, run) == {})
            && (Covered(v) ==> (AtRisk(c.cells[key]) <==> exists k :: HalfConfirm(first, run, k)))
  {
    var first, run := c.start[key], c.runs[key];
    assert Traced(c.start, c.runs, c.cells, c.tallies, key);
    SettledExactly(first, run);
    if Covered(c.groups[key]) { AtRiskOverRuns(first, run); }
  }

  /** When every re-read worked, they agree and everything alive is on disk. */
  lemma GroupsStaySettled(c: Cluster, key: Key)
    requires c.Valid() && key in c.groups && Initial(c.start[key])
    requires forall j :: 0 <= j < |c.runs[key]| ==> ReReadWorks(c.runs[key][j])
    requires forall j :: 0 <= j < |c.runs[key]| ==> !BadStop(At(c.start[key], c.runs[key], j), c.runs[key][j])
    ensures var v := c.groups[key];
            Contiguous(v.procs) && v.disk == |v.procs| && v.configs == Range(0, |v.procs|) && Covered(v)
  {
    var first, run := c.start[key], c.runs[key];
    assert Traced(c.start, c.runs, c.cells, c.tallies, key);
    SettledRun(first, run, |run|);
    assert run[..|run|] == run;
  }
}
