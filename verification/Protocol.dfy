/** The scale-up and two-phase scale-down protocol between the daemon and one process group, as a
    transition system. A cell holds the group on the node and the names the daemon has pending for
    it. Processes change state on their own, replies get lost, calls stop half way, and the node
    crashes and restarts from its disk configuration at any point, also inside a call. */
module Protocol {
  import opened Names
  import opened Group

  datatype Cell = Cell(view: GroupView, pending: set<nat>)

  /** How a call ends for the daemon: with the node's answer, without one, or with the node down. */
  datatype End = Replied | Lost | Crashed

  datatype Step =
    | Env(procs: map<nat, ProcState>)
    | Restart
    | ScaleUp(steps: nat, end: End)
    | ScaleDown(top: seq<nat>, procs: map<nat, ProcState>, end: End)
    | Confirm(names: seq<nat>, steps: nat, end: End)
    | Drop(keep: set<nat>)   // the daemon forgets pending names

  /** What the daemon and the node can do. The daemon never scales a blocked node up, and it confirms
      only names it has pending; the environment is free to set process states. */
  ghost predicate Enabled(c: Cell, s: Step)
  {
    match s
    case Env(procs) => procs.Keys == c.view.procs.Keys
    case Restart => true
    case ScaleUp(_, _) => c.pending == {}
    case ScaleDown(top, procs, _) => IsTop(c.view, 1, top) && StopsOnly(c.view.procs, top, procs)
    case Confirm(names, _, _) => names != [] && Distinct(names) && SetOf(names) <= c.pending
    case Drop(_) => true
  }

  /** The group after the call's own effects, before a crash takes the memory away. */
  function Effect(c: Cell, s: Step): GroupView
  {
    match s
    case Env(procs) => c.view.(procs := procs)
    case Restart => c.view
    case ScaleUp(steps, _) => AfterScaleUp(c.view, 1, steps).0
    case ScaleDown(_, procs, _) => c.view.(procs := procs)
    case Confirm(names, steps, _) => AfterConfirm(c.view, names, steps).0
    case Drop(_) => c.view
  }

  predicate Crashes(s: Step)
  {
    s.Restart? || ((s.ScaleUp? || s.ScaleDown? || s.Confirm?) && s.end.Crashed?)
  }

  /** The names scaleDown reports and the daemon receives (Reported, as a set). */
  ghost function Delivered(c: Cell, s: Step): set<nat>
  {
    if s.ScaleDown? && s.end.Replied? then
      set p | p in s.top && p in c.view.procs && !c.view.procs[p].Stopping?
    else {}
  }

  ghost function Apply(c: Cell, s: Step): Cell
  {
    var v := Effect(c, s);
    Cell(if Crashes(s) then Restarted(v) else v,
         if s.Drop? then c.pending * s.keep else c.pending + Delivered(c, s))
  }

  // ----- Runs -----

  ghost function After(c: Cell, run: seq<Step>): Cell
  {
    if |run| == 0 then c else Apply(After(c, run[..|run| - 1]), run[|run| - 1])
  }

  /** The state before step k of a run. */
  ghost function At(c: Cell, run: seq<Step>, k: nat): Cell
    requires k <= |run|
  {
    After(c, run[..k])
  }

  ghost predicate IsRun(c: Cell, run: seq<Step>)
  {
    forall k :: 0 <= k < |run| ==> Enabled(At(c, run, k), run[k])
  }

  lemma AtStep(c: Cell, run: seq<Step>, k: nat)
    requires k < |run|
    ensures At(c, run, k + 1) == Apply(At(c, run, k), run[k])
  {
    assert run[..k + 1][..k] == run[..k];
  }

  lemma FrontRun(c: Cell, run: seq<Step>)
    requires |run| > 0
    ensures var front := run[..|run| - 1];
            && (IsRun(c, run) ==> IsRun(c, front))
            && forall j :: 0 <= j < |front| ==> At(c, front, j) == At(c, run, j) && front[j] == run[j]
  {
    var front := run[..|run| - 1];
    assert forall j :: 0 <= j <= |front| ==> front[..j] == run[..j];
  }

  // ----- The invariant -----

  /** The group is processes 0 to n-1; a pending name is the top one, or it has left the group and the
      disk does not list it either; the disk is at most one process off. */
  ghost predicate Good(c: Cell)
  {
    var n := |c.view.procs|;
    && c.view.keyed && Contiguous(c.view.procs)
    && 0 <= c.view.disk && n - 1 <= c.view.disk <= n + 1
    && forall p :: p in c.pending ==> p == n - 1 || (n <= p && c.view.disk <= p)
  }

  /** The three views agree. */
  ghost predicate Settled(c: Cell)
  {
    c.view.disk == |c.view.procs| && c.view.configs == Range(0, |c.view.procs|)
  }

  /** No process that is doing anything would be missing after a restart from disk. */
  ghost predicate Covered(v: GroupView)
  {
    forall i :: i in v.procs && !IsStopped(v.procs[i]) ==> i < v.disk
  }

  ghost predicate Initial(c: Cell)
  {
    c.view.keyed && Contiguous(c.view.procs) && Settled(c) && c.pending == {}
  }

  /** The step gets as far as writing the disk. */
  predicate Writes(c: Cell, s: Step)
  {
    (s.ScaleUp? && s.steps > 0) || (s.Confirm? && s.steps > 0 && Removable(c.view.procs, s.names))
  }

  /** The node goes down, with nothing written before, while a pending process is still in the group and the
      disk lists more processes than the group has. */
  ghost predicate BadCrash(c: Cell, s: Step)
  {
    && Crashes(s) && !Writes(c, s) && c.view.disk > |c.view.procs|
    && exists p :: p in c.pending && p in c.view.procs
  }

  /** The node answers a scaleDown of a group whose last process does not have the greatest name, and names
      the process that has. */
  ghost predicate BadStop(c: Cell, s: Step)
  {
    && s.ScaleDown? && s.end.Replied? && !c.view.template.LastOnTop(|c.view.procs|)
    && s.top != [] && s.top[0] in c.view.procs && !c.view.procs[s.top[0]].Stopping?
  }

  ghost predicate Benign(c: Cell, s: Step) { !BadCrash(c, s) && !BadStop(c, s) }

  // ----- Every step keeps the invariant -----

  lemma RestartedContiguous(v: GroupView)
    ensures var n := Max(0, v.disk);
            |Restarted(v).procs| == n && Contiguous(Restarted(v).procs)
    ensures forall i :: i in Restarted(v).procs ==> Restarted(v).procs[i] == Stopped
  {
    RangeMembers(0, Max(0, v.disk));
    ContiguousBelow(Restarted(v).procs, Max(0, v.disk));
  }

  lemma SameKeys(procs: map<nat, ProcState>, procs': map<nat, ProcState>)
    requires procs.Keys == procs'.Keys
    ensures |procs| == |procs'| && (Contiguous(procs) ==> Contiguous(procs'))
  {
    assert |procs.Keys| == |procs| && |procs'.Keys| == |procs'|;
    assert forall i: nat :: i in procs' <==> i in procs;
  }

  /** scaleDown(1) on a good cell selects the process with the greatest name, and that is the last process
      exactly when the names say so. */
  lemma ScaleDownStep(c: Cell, s: Step)
    requires Good(c) && s.ScaleDown? && Enabled(c, s)
    ensures |c.view.procs| == 0 ==> s.top == []
    ensures |c.view.procs| > 0 ==>
              |s.top| == 1 && s.top[0] < |c.view.procs|
              && (s.top[0] == |c.view.procs| - 1 <==> c.view.template.LastOnTop(|c.view.procs|))
  {
    if |c.view.procs| > 0 {
      TopIsGreatest(c.view, s.top);
    }
  }

  lemma TopIsGreatest(v: GroupView, top: seq<nat>)
    requires Contiguous(v.procs) && |v.procs| > 0 && IsTop(v, 1, top)
    ensures top[0] < |v.procs| && (top[0] == |v.procs| - 1 <==> v.template.LastOnTop(|v.procs|))
  {
    var t: Template, last: nat, x := v.template, |v.procs| - 1, top[0];
    assert x in v.procs;
    if x == last {
      forall i: nat | i < last
        ensures t.Before(i, last)
      {
        TopDominates(v, 1, top, 0, i);
      }
    } else {
      TopDominates(v, 1, top, 0, last);
      LessAsymmetric(t.NameOf(last), t.NameOf(x));
      assert !t.Before(x, last);
    }
  }

  /** So what it delivers is the top process, or the step is a bad one. */
  lemma DeliveredIsTop(c: Cell, s: Step)
    requires Good(c) && s.ScaleDown? && Enabled(c, s)
    ensures BadStop(c, s) <==> exists p :: p in Delivered(c, s) && p != |c.view.procs| - 1
    ensures forall p :: p in Delivered(c, s) ==> p < |c.view.procs|
  {
    ScaleDownStep(c, s);
    if BadStop(c, s) {
      assert s.top[0] in Delivered(c, s) && s.top[0] != |c.view.procs| - 1;
    }
  }

  lemma OnlyOne(names: seq<nat>, x: nat)
    requires Distinct(names) && names != [] && forall k :: 0 <= k < |names| ==> names[k] == x
    ensures names == [x]
  {
    assert names[0] == x && names[|names| - 1] == x;
  }

  lemma ConfirmOne(v: GroupView, x: nat, steps: nat)
    requires v.keyed && Removable(v.procs, [x]) && steps > 0
    ensures AfterConfirm(v, [x], steps) ==
            (v.(disk := |v.procs| - 1, procs := if steps <= 2 then v.procs else v.procs - {x},
                configs := if steps <= 3 then v.configs else Without(v.configs, {x})), steps > 3)
  {
    DistinctPrefixWhole([x]);
    assert [x][..1] == [x] && SetOf([x]) == {x} && SetOf([x][..0]) == {};
    assert v.procs - {} == v.procs;
  }

  /** confirmScaleDown on a good cell is refused, or it is about exactly the top process. */
  lemma ConfirmStep(c: Cell, s: Step)
    requires Good(c) && s.Confirm? && Enabled(c, s)
    ensures var v := c.view;
            var n := |v.procs|;
            || (Effect(c, s) == v && (s.steps == 0 || !Removable(v.procs, s.names)))
            || (n > 0 && s.names == [n - 1] && s.steps > 0 && IsStopped(v.procs[n - 1]) &&
                Effect(c, s) == v.(disk := n - 1, procs := if s.steps <= 2 then v.procs else v.procs - {n - 1},
                                   configs := if s.steps <= 3 then v.configs else Without(v.configs, {n - 1})))
  {
    var v, names := c.view, s.names;
    if s.steps > 0 && Removable(v.procs, names) {
      var top := |v.procs| - 1;
      assert forall k :: 0 <= k < |names| ==> names[k] in SetOf(names);
      assert forall k :: 0 <= k < |names| ==> names[k] == top;
      assert names[0] == top;
      OnlyOne(names, names[0]);
      ConfirmOne(v, names[0], s.steps);
    }
  }

  lemma RemoveTop(procs: map<nat, ProcState>)
    requires Contiguous(procs) && |procs| > 0
    ensures |procs - {|procs| - 1}| == |procs| - 1 && Contiguous(procs - {|procs| - 1})
  {
    ContiguousBelow(procs - {|procs| - 1}, |procs| - 1);
  }

  lemma EffectGood(c: Cell, s: Step)
    requires Good(c) && Enabled(c, s) && !BadStop(c, s)
    ensures Good(Cell(Effect(c, s), c.pending + Delivered(c, s)))
  {
    match s
    case Env(procs) => SameKeys(c.view.procs, procs);
    case Restart =>
    case ScaleUp(steps, _) =>
      if steps > 0 { ScaleUpContiguous(c.view, 1, steps); }
    case ScaleDown(_, procs, _) =>
      SameKeys(c.view.procs, procs);
      DeliveredIsTop(c, s);
    case Confirm(_, _, _) =>
      ConfirmStep(c, s);
      if |c.view.procs| > 0 { RemoveTop(c.view.procs); }
    case Drop(_) =>
  }

  /** A crash keeps the invariant exactly when it does not find a pending process in the group while the disk
      lists too many. */
  lemma CrashKeepsGoodExactly(c: Cell, s: Step)
    requires Good(c) && Enabled(c, s) && Crashes(s)
    ensures Good(Apply(c, s)) <==> !BadCrash(c, s)
  {
    EffectGood(c, s);
    RestartKeepsGood(Effect(c, s), c.pending + Delivered(c, s));
    CrashInside(c, s);
  }

  /** What a crash meets inside a call can be told before the call. */
  lemma CrashInside(c: Cell, s: Step)
    requires Good(c) && Enabled(c, s) && Crashes(s)
    ensures var v := Effect(c, s);
            BadCrash(c, s) <==> v.disk > |v.procs| && exists p :: p in c.pending + Delivered(c, s) && p in v.procs
  {
    match s
    case Restart => assert c.pending + Delivered(c, s) == c.pending;
    case ScaleUp(_, _) =>
    case ScaleDown(_, procs, _) => SameKeys(c.view.procs, procs);
    case Confirm(_, _, _) => ConfirmWrites(c, s);
  }

  lemma ConfirmWrites(c: Cell, s: Step)
    requires Good(c) && Enabled(c, s) && s.Confirm?
    ensures if Writes(c, s) then Effect(c, s).disk <= |Effect(c, s).procs| else Effect(c, s) == c.view
  {
    ConfirmStep(c, s);
    if |c.view.procs| > 0 { RemoveTop(c.view.procs); }
  }

  lemma RestartKeepsGood(v: GroupView, pending: set<nat>)
    requires Good(Cell(v, pending))
    ensures Good(Cell(Restarted(v), pending)) <==> !(v.disk > |v.procs| && exists p :: p in pending && p in v.procs)
  {
    RestartedContiguous(v);
    if v.disk > |v.procs| {
      if p :| p in pending && p in v.procs {
        assert Cell(Restarted(v), pending).pending == pending;
      } else {
        assert forall p :: p in pending && p < |v.procs| ==> p in v.procs;
      }
    }
  }

  lemma BadStopBreaks(c: Cell, s: Step)
    requires Good(c) && Enabled(c, s) && BadStop(c, s)
    ensures !Good(Apply(c, s))
  {
    DeliveredIsTop(c, s);
    SameKeys(c.view.procs, s.procs);
    var p :| p in Delivered(c, s) && p != |c.view.procs| - 1;
    assert p in Apply(c, s).pending;
  }

  /** The invariant is kept by every step but two kinds, and exactly by those: a crash while a pending process
      is still in the group of a node whose disk lists too many, and a scaleDown answered by a group whose
      last process does not have the greatest name. */
  lemma GoodStep(c: Cell, s: Step)
    requires Good(c) && Enabled(c, s)
    ensures Good(Apply(c, s)) <==> Benign(c, s)
  {
    if BadStop(c, s) {
      BadStopBreaks(c, s);
    } else if Crashes(s) {
      CrashKeepsGoodExactly(c, s);
    } else {
      EffectGood(c, s);
    }
  }

  lemma NineBeats(t: Template, i: nat)
    requires t == Template("worker_", 0, 0) && i <= 10 && i != 9
    ensures t.Before(i, 9)
  {
    if i < 9 {
      assert Show(0) == "0" && Pad(0, 0) == "0" && Pow10(1) == 10;
      FitsInOrder(t, 10, i, 9);
    } else {
      assert Pow10(1) == 10;
      CrossingBreaksOrder("worker_", 0, 1);
      NameTotal("worker_", 0, 9, 10);
    }
  }

  lemma NineIsGreatest(v: GroupView)
    requires v.template == Template("worker_", 0, 0) && Contiguous(v.procs) && |v.procs| == 11
    ensures IsTop(v, 1, [9])
  {
    forall i | i in v.procs && i != 9
      ensures v.template.Before(i, 9)
    {
      NineBeats(v.template, i);
    }
  }

  /** An input where the second kind breaks it: eleven processes named without padding. The greatest name is
      that of process 9. */
  lemma UnpaddedElevenBreaks(c: Cell, procs: map<nat, ProcState>)
    requires Good(c) && c.view.template == Template("worker_", 0, 0) && |c.view.procs| == 11
    requires 9 in c.view.procs && !c.view.procs[9].Stopping? && StopsOnly(c.view.procs, [9], procs)
    ensures var s := ScaleDown([9], procs, Replied); Enabled(c, s) && BadStop(c, s) && !Good(Apply(c, s))
  {
    NineIsGreatest(c.view);
    var s := ScaleDown([9], procs, Replied);
    ScaleDownStep(c, s);
    BadStopBreaks(c, s);
  }

  /** In every state of every run without those steps, the group is contiguous, at most one pending
      name is in it, and that one is the top process. */
  lemma {:induction false} GoodRun(c: Cell, run: seq<Step>, k: nat)
    requires IsRun(c, run) && Initial(c) && k <= |run|
    requires forall j :: 0 <= j < k ==> Benign(At(c, run, j), run[j])
    ensures Good(At(c, run, k))
  {
    if k > 0 {
      GoodRun(c, run, k - 1);
      GoodStep(At(c, run, k - 1), run[k - 1]);
      AtStep(c, run, k - 1);
    }
  }

  lemma GoodAfter(c: Cell, run: seq<Step>)
    requires IsRun(c, run) && Initial(c)
    requires forall j :: 0 <= j < |run| ==> Benign(At(c, run, j), run[j])
    ensures Good(After(c, run))
  {
    GoodRun(c, run, |run|);
    assert run[..|run|] == run;
  }

  lemma PendingInGroupIsTop(c: Cell)
    requires Good(c)
    ensures c.pending * c.view.procs.Keys <= {|c.view.procs| - 1}
    ensures |c.pending * c.view.procs.Keys| <= 1
  {
    var top := {|c.view.procs| - 1};
    assert c.pending * c.view.procs.Keys <= top;
    SubsetCard(c.pending * c.view.procs.Keys, top);
  }

  lemma {:induction false} SubsetCard<T>(a: set<T>, b: set<T>)
    requires a <= b
    ensures |a| <= |b|
  {
    assert b == a + (b - a);
  }

  // ----- The three views agree -----

  /** A re-read of the configuration never fails: a call that got past its disk write completes, or the
      node crashes in it. */
  predicate ReReadWorks(s: Step)
  {
    match s
    case ScaleUp(steps, end) => steps == 0 || steps >= 3 || end.Crashed?
    case Confirm(names, steps, end) => steps == 0 || steps >= 3 + |names| || end.Crashed?
    case _ => true
  }

  lemma {:induction false} WithoutTop(n: nat)
    ensures Without(Range(0, n + 1), {n}) == Range(0, n)
  {
    WithoutNone(Range(0, n), {n});
  }

  lemma {:induction false} WithoutNone(configs: seq<nat>, gone: set<nat>)
    requires forall k :: 0 <= k < |configs| ==> configs[k] !in gone
    ensures Without(configs, gone) == configs
  {
    if |configs| > 0 {
      WithoutNone(configs[..|configs| - 1], gone);
    }
  }

  /** As long as re-reads work, no crash is a bad one, and disk, memory and configuration list agree
      after every step, whatever is lost and wherever the node crashes. */
  lemma SettledStep(c: Cell, s: Step)
    requires Good(c) && Settled(c) && Enabled(c, s) && ReReadWorks(s) && !BadStop(c, s)
    ensures Benign(c, s) && Good(Apply(c, s)) && Settled(Apply(c, s))
  {
    EffectGood(c, s);
    RestartedContiguous(Effect(c, s));
    if !Crashes(s) { EffectSettled(c, s); }
    GoodStep(c, s);
  }

  lemma EffectSettled(c: Cell, s: Step)
    requires Good(c) && Settled(c) && Enabled(c, s) && ReReadWorks(s) && !Crashes(s)
    ensures Settled(Cell(Effect(c, s), c.pending))
  {
    match s
    case Env(procs) => SameKeys(c.view.procs, procs);
    case ScaleUp(steps, _) => ScaleUpSettled(c, s);
    case ScaleDown(_, procs, _) => SameKeys(c.view.procs, procs);
    case Confirm(_, _, _) => ConfirmSettled(c, s);
    case _ =>
  }

  lemma ScaleUpSettled(c: Cell, s: Step)
    requires Good(c) && Settled(c) && s.ScaleUp? && ReReadWorks(s) && !Crashes(s)
    ensures Settled(Cell(Effect(c, s), c.pending))
  {
    if s.steps > 0 {
      ScaleUpContiguous(c.view, 1, s.steps);
      RangeAppend(|c.view.procs|);
    }
  }

  lemma ConfirmSettled(c: Cell, s: Step)
    requires Good(c) && Settled(c) && s.Confirm? && Enabled(c, s) && ReReadWorks(s) && !Crashes(s)
    ensures Settled(Cell(Effect(c, s), c.pending))
  {
    ConfirmStep(c, s);
    if |c.view.procs| > 0 {
      RemoveTop(c.view.procs);
      WithoutTop(|c.view.procs| - 1);
    }
  }

  lemma RangeAppend(n: nat)
    ensures Range(0, n) + Range(n, 1) == Range(0, n + 1) && Range(0, n) + [] == Range(0, n)
  {
    assert Range(n, 0) == [];
  }

  lemma {:induction false} SettledRun(c: Cell, run: seq<Step>, k: nat)
    requires IsRun(c, run) && Initial(c) && k <= |run|
    requires forall j :: 0 <= j < k ==> ReReadWorks(run[j])
    requires forall j :: 0 <= j < k ==> !BadStop(At(c, run, j), run[j])
    ensures Good(At(c, run, k)) && Settled(At(c, run, k)) && Covered(At(c, run, k).view)
  {
    if k > 0 {
      SettledRun(c, run, k - 1);
      SettledStep(At(c, run, k - 1), run[k - 1]);
      AtStep(c, run, k - 1);
    }
  }

  // ----- Crash safety -----

  lemma CoveredInsideScaleUp(v: GroupView, steps: nat)
    requires v.keyed && Contiguous(v.procs) && Covered(v)
    ensures Covered(AfterScaleUp(v, 1, steps).0)
  {
    if steps > 0 {
      ScaleUpContiguous(v, 1, steps);
      var after := AfterScaleUp(v, 1, steps).0;
      assert |after.procs| <= after.disk && Contiguous(after.procs);
    }
  }

  /** At every point inside a call, everything that is not stopped is on disk: a crash there loses no
      live worker. */
  lemma CoveredInsideCalls(c: Cell, s: Step)
    requires Good(c) && Covered(c.view) && Enabled(c, s) && !s.Env?
    ensures Covered(Effect(c, s))
  {
    match s
    case ScaleUp(steps, _) => CoveredInsideScaleUp(c.view, steps);
    case Confirm(_, _, _) => CoveredInsideConfirm(c, s);
    case _ =>
  }

  lemma CoveredInsideConfirm(c: Cell, s: Step)
    requires Good(c) && Covered(c.view) && Enabled(c, s) && s.Confirm?
    ensures Covered(Effect(c, s))
  {
    ConfirmStep(c, s);
    var after := Effect(c, s);
    if after != c.view {
      forall i | i in after.procs && !IsStopped(after.procs[i])
        ensures i < after.disk
      {
        assert i in c.view.procs && c.view.procs[i] == after.procs[i];
      }
    }
  }

  /** Between calls, every move that is possible keeps it so exactly when the disk lists as many processes as
      the group has: otherwise the environment may start one that the disk does not list. */
  lemma CoveredExactly(c: Cell)
    requires Good(c) && Covered(c.view)
    ensures (forall s :: Enabled(c, s) ==> Covered(Apply(c, s).view)) <==> |c.view.procs| <= c.view.disk
  {
    if |c.view.procs| <= c.view.disk {
      forall s | Enabled(c, s)
        ensures Covered(Apply(c, s).view)
      {
        RestartedContiguous(Effect(c, s));
        if !s.Env? { CoveredInsideCalls(c, s); }
      }
    } else {
      var busy := map i | i in c.view.procs :: ProcState.Running;
      assert Enabled(c, Env(busy)) && c.view.disk in busy;
      assert !Covered(Apply(c, Env(busy)).view);
    }
  }

  /** When re-reads work there is no such process: SettledRun. When one fails inside confirmScaleDown
      there is one until the retry, and if it was EXITED rather than STOPPED, Supervisor may start it. */
  lemma FailedReReadUncovers(c: Cell, procs: map<nat, ProcState>)
    requires Good(c) && Settled(c) && |c.view.procs| > 0
    requires var top := |c.view.procs| - 1;
             c.pending == {top} && c.view.procs[top].Exited?
             && procs == c.view.procs[top := Starting]
    ensures var run := [Confirm([|c.view.procs| - 1], 1, Replied), Env(procs)];
            IsRun(c, run) && !Covered(After(c, run).view)
  {
    var top := |c.view.procs| - 1;
    var s0, s1 := Confirm([top], 1, Replied), Env(procs);
    var run := [s0, s1];
    assert SetOf([top]) == {top};
    var c1 := Apply(c, s0);
    assert c1.view == c.view.(disk := top);
    assert procs.Keys == c.view.procs.Keys;
    assert run[..0] == [] && run[..1] == [s0] && run[..2] == run && [s0][..0] == [];
    assert At(c, run, 0) == c && At(c, run, 1) == c1;
    assert After(c, run) == Apply(c1, s1);
    assert top in procs && !IsStopped(procs[top]);
  }

  // ----- Two-phase removal -----

  /** Step k of the run removes process p from the group by confirmScaleDown. */
  ghost predicate Removes(c: Cell, run: seq<Step>, k: nat, p: nat)
  {
    && k < |run| && run[k].Confirm?
    && p in At(c, run, k).view.procs && p !in Effect(At(c, run, k), run[k]).procs
  }

  ghost predicate Announces(c: Cell, run: seq<Step>, k: nat, p: nat)
  {
    k < |run| && p in Delivered(At(c, run, k), run[k])
  }

  ghost predicate PendingAt(c: Cell, run: seq<Step>, k: nat, p: nat)
    requires k <= |run|
  {
    p in At(c, run, k).pending
  }

  ghost predicate PresentAt(c: Cell, run: seq<Step>, k: nat, p: nat)
    requires k <= |run|
  {
    p in At(c, run, k).view.procs
  }

  /** Step j names p, and p is pending from then on up to moment k. */
  ghost predicate NamedSince(c: Cell, run: seq<Step>, j: nat, k: nat, p: nat)
  {
    && j < k <= |run| && Announces(c, run, j, p)
    && forall i {:trigger PendingAt(c, run, i, p)} :: j < i <= k ==> PendingAt(c, run, i, p)
  }

  /** And it never leaves the group in between: the process named is the one there at moment k. */
  ghost predicate StaysSince(c: Cell, run: seq<Step>, j: nat, k: nat, p: nat)
  {
    j <= k <= |run| && forall i {:trigger PresentAt(c, run, i, p)} :: j <= i <= k ==> PresentAt(c, run, i, p)
  }

  lemma {:induction false} PendingWasNamed(c: Cell, run: seq<Step>, k: nat, p: nat)
    requires IsRun(c, run) && c.pending == {} && k <= |run| && p in At(c, run, k).pending
    ensures exists j :: NamedSince(c, run, j, k, p)
  {
    if k > 0 {
      AtStep(c, run, k - 1);
      if p in At(c, run, k - 1).pending {
        PendingWasNamed(c, run, k - 1, p);
        var j :| NamedSince(c, run, j, k - 1, p);
        assert NamedSince(c, run, j, k, p);
      } else {
        assert NamedSince(c, run, k - 1, k, p);
      }
    }
  }

  /** Whatever confirmScaleDown removes was stopped at that moment, had been named by an earlier scaleDown
      reply of the same node and has been pending ever since. This needs no assumption on the run. */
  lemma RemovedWasStoppedAndNamed(c: Cell, run: seq<Step>, k: nat, p: nat)
    requires IsRun(c, run) && c.pending == {} && Removes(c, run, k, p)
    ensures IsStopped(At(c, run, k).view.procs[p])
    ensures exists j :: NamedSince(c, run, j, k, p)
  {
    var d, s := At(c, run, k), run[k];
    assert Removable(d.view.procs, s.names) && p in s.names by {
      assert forall m :: 0 <= m <= |s.names| ==> SetOf(s.names[..m]) <= SetOf(s.names);
      assert p in SetOf(s.names);
    }
    assert p in SetOf(s.names);
    PendingWasNamed(c, run, k, p);
  }

  lemma StaysGone(c: Cell, s: Step, p: nat)
    requires Good(c) && Enabled(c, s) && Benign(c, s)
    requires p in c.pending && p !in c.view.procs
    ensures p !in Apply(c, s).view.procs
  {
    GoodStep(c, s);
    RestartedContiguous(Effect(c, s));
    if s.Confirm? { ConfirmStep(c, s); }
  }

  lemma StaysGoneAt(c: Cell, run: seq<Step>, k: nat, p: nat)
    requires IsRun(c, run) && Initial(c) && k < |run| && PendingAt(c, run, k, p) && !PresentAt(c, run, k, p)
    requires forall j :: 0 <= j <= k ==> Benign(At(c, run, j), run[j])
    ensures !PresentAt(c, run, k + 1, p)
  {
    GoodRun(c, run, k);
    StaysGone(At(c, run, k), run[k], p);
    AtStep(c, run, k);
  }

  /** A name that has left the group does not come back while it is pending, so with lost replies and
      retries each pending process is removed once. */
  lemma {:induction false} NotRecreatedWhilePending(c: Cell, run: seq<Step>, a: nat, b: nat, p: nat)
    requires IsRun(c, run) && Initial(c) && a <= b <= |run|
    requires forall j :: 0 <= j < b ==> Benign(At(c, run, j), run[j])
    requires forall j: nat {:trigger PendingAt(c, run, j, p)} :: a <= j <= b ==> PendingAt(c, run, j, p)
    requires !PresentAt(c, run, a, p)
    ensures !PresentAt(c, run, b, p)
    decreases b
  {
    if a < b {
      NotRecreatedWhilePending(c, run, a, b - 1, p);
      assert PendingAt(c, run, b - 1, p);
      StaysGoneAt(c, run, b - 1, p);
    }
  }

  /** What confirmScaleDown removes is the very process that was named: between the reply and the removal it
      was pending and never left the group, although numbers are used again. */
  lemma RemovedIsTheOneNamed(c: Cell, run: seq<Step>, k: nat, p: nat)
    requires IsRun(c, run) && Initial(c) && Removes(c, run, k, p)
    requires forall j :: 0 <= j < k ==> Benign(At(c, run, j), run[j])
    ensures exists j :: NamedSince(c, run, j, k, p) && StaysSince(c, run, j, k, p)
  {
    RemovedWasStoppedAndNamed(c, run, k, p);
    var j: nat :| NamedSince(c, run, j, k, p);
    forall i: nat | j <= i <= k
      ensures PresentAt(c, run, i, p)
    {
      NamedStays(c, run, j, i, k, p);
    }
    assert StaysSince(c, run, j, k, p);
  }

  lemma NamedStays(c: Cell, run: seq<Step>, j: nat, i: nat, k: nat, p: nat)
    requires IsRun(c, run) && Initial(c) && j <= i <= k && NamedSince(c, run, j, k, p) && PresentAt(c, run, k, p)
    requires forall m :: 0 <= m < k ==> Benign(At(c, run, m), run[m])
    ensures PresentAt(c, run, i, p)
  {
    if j < i && !PresentAt(c, run, i, p) {
      NotRecreatedWhilePending(c, run, i, k, p);
    }
  }

  lemma GoneOnceRemoved(c: Cell, run: seq<Step>, k: nat, p: nat)
    requires IsRun(c, run) && Initial(c) && Removes(c, run, k, p)
    requires forall j :: 0 <= j < k ==> Benign(At(c, run, j), run[j])
    ensures !PresentAt(c, run, k + 1, p)
  {
    AtStep(c, run, k);
    GoodRun(c, run, k);
    ConfirmStep(At(c, run, k), run[k]);
    RestartedContiguous(Effect(At(c, run, k), run[k]));
  }

  lemma RemovedOnce(c: Cell, run: seq<Step>, a: nat, b: nat, p: nat)
    requires IsRun(c, run) && Initial(c) && a < b < |run|
    requires forall j :: 0 <= j < b ==> Benign(At(c, run, j), run[j])
    requires forall j: nat {:trigger PendingAt(c, run, j, p)} :: a <= j <= b ==> PendingAt(c, run, j, p)
    requires Removes(c, run, a, p)
    ensures !Removes(c, run, b, p)
  {
    GoneOnceRemoved(c, run, a, p);
    NotRecreatedWhilePending(c, run, a + 1, b, p);
  }

  // ----- The exception is real -----

  /** A run of the code that leaves a hole, from any agreed group whose top process n is stopped. The
      re-read of a scaleUp fails, so the disk lists one process more than the group; scaleDown names
      the top process, which becomes pending; the node crashes and comes back with the extra process on
      top; the pending one is seen stopped and is removed from the middle. */
  function HoleRun(procs: map<nat, ProcState>, n: nat): seq<Step>
  {
    [ScaleUp(1, Replied), ScaleDown([n], procs, Replied), Restart, Confirm([n], 4, Replied)]
  }

  function Dirty(c: Cell): GroupView { c.view.(disk := |c.view.procs| + 1) }

  lemma HoleUp(c: Cell)
    requires Initial(c)
    ensures Apply(c, ScaleUp(1, Replied)) == Cell(Dirty(c), {})
  {
  }

  lemma HoleDown(v: GroupView, n: nat)
    requires n in v.procs && IsStopped(v.procs[n])
    ensures Apply(Cell(v, {}), ScaleDown([n], v.procs, Replied)) == Cell(v, {n})
  {
    assert Delivered(Cell(v, {}), ScaleDown([n], v.procs, Replied)) == {n};
  }

  lemma HoleBack(v: GroupView, n: nat)
    ensures Apply(Cell(v, {n}), Restart) == Cell(Restarted(v), {n})
  {
  }

  lemma FourSteps(c: Cell, run: seq<Step>)
    requires |run| == 4
    ensures At(c, run, 0) == c && After(c, run) == Apply(At(c, run, 3), run[3])
    ensures forall k :: 0 <= k < 3 ==> At(c, run, k + 1) == Apply(At(c, run, k), run[k])
  {
    AtStep(c, run, 0);
    AtStep(c, run, 1);
    AtStep(c, run, 2);
  }

  lemma HoleStates(c: Cell, n: nat)
    requires Initial(c) && |c.view.procs| == n + 1 && IsStopped(c.view.procs[n])
    ensures var run := HoleRun(c.view.procs, n);
            && At(c, run, 0) == c
            && At(c, run, 1) == Cell(Dirty(c), {})
            && At(c, run, 2) == Cell(Dirty(c), {n})
            && At(c, run, 3) == Cell(Restarted(Dirty(c)), {n})
            && After(c, run) == Apply(Cell(Restarted(Dirty(c)), {n}), run[3])
  {
    var run := HoleRun(c.view.procs, n);
    FourSteps(c, run);
    HoleUp(c);
    HoleDown(Dirty(c), n);
    HoleBack(Dirty(c), n);
  }

  lemma HoleEnabled(c: Cell, n: nat)
    requires Initial(c) && |c.view.procs| == n + 1 && IsStopped(c.view.procs[n]) && c.view.template.LastOnTop(n + 1)
    ensures Enabled(Cell(Dirty(c), {}), ScaleDown([n], c.view.procs, Replied))
    ensures Enabled(Cell(Restarted(Dirty(c)), {n}), Confirm([n], 4, Replied))
  {
    var t := c.view.template;
    forall i | i in c.view.procs && i != n
      ensures t.Before(i, n)
    {
      assert t.Above(n) && i < n;
    }
    assert SetOf([n]) == {n};
  }

  lemma HoleEnd(v: GroupView, n: nat)
    requires v.keyed && v.disk == n + 2
    ensures var last := Apply(Cell(Restarted(v), {n}), Confirm([n], 4, Replied)).view.procs;
            n !in last && n + 1 in last && !Contiguous(last)
  {
    RestartedContiguous(v);
    var procs := Restarted(v).procs;
    assert n in procs && n + 1 in procs;
    ConfirmOne(Restarted(v), n, 4);
    var last := procs - {n};
    assert n !in last && n + 1 in last;
  }

  lemma HoleBenign(c: Cell, n: nat)
    requires Initial(c) && |c.view.procs| == n + 1 && c.view.template.LastOnTop(n + 1)
    ensures Benign(c, ScaleUp(1, Replied))
    ensures Benign(Cell(Dirty(c), {}), ScaleDown([n], c.view.procs, Replied))
    ensures BadCrash(Cell(Dirty(c), {n}), Restart)
    ensures Benign(Cell(Restarted(Dirty(c)), {n}), Confirm([n], 4, Replied))
  {
    assert n in c.view.procs;
  }

  lemma HoleIsRun(c: Cell, n: nat)
    requires Initial(c) && |c.view.procs| == n + 1 && IsStopped(c.view.procs[n]) && c.view.template.LastOnTop(n + 1)
    ensures IsRun(c, HoleRun(c.view.procs, n))
  {
    var run := HoleRun(c.view.procs, n);
    HoleStates(c, n);
    HoleEnabled(c, n);
    assert Enabled(At(c, run, 0), run[0]);
    assert Enabled(At(c, run, 2), run[2]);
    forall k | 0 <= k < |run|
      ensures Enabled(At(c, run, k), run[k])
    {
      assert k == 0 || k == 1 || k == 2 || k == 3;
    }
  }

  lemma HoleIsReachable(c: Cell, n: nat)
    requires Initial(c) && |c.view.procs| == n + 1 && IsStopped(c.view.procs[n]) && c.view.template.LastOnTop(n + 1)
    ensures var run := HoleRun(c.view.procs, n);
            && IsRun(c, run)
            && (forall k :: 0 <= k < |run| && k != 2 ==> Benign(At(c, run, k), run[k]))
            && BadCrash(At(c, run, 2), run[2])
            && !Contiguous(After(c, run).view.procs)
  {
    HoleIsRun(c, n);
    HoleStates(c, n);
    HoleBenign(c, n);
    HoleEnd(Dirty(c), n);
    forall k | 0 <= k < 4 && k != 2
      ensures Benign(At(c, HoleRun(c.view.procs, n), k), HoleRun(c.view.procs, n)[k])
    {
      assert k == 0 || k == 1 || k == 3;
    }
  }
}
