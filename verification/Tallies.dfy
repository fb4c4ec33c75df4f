/** What the daemon's calls did to one group: how many scaleUp and scaleDown calls the node executed, how
    many of those the daemon saw acknowledged, which processes those named, and which removals were
    acknowledged, and how often: numbers are used again. */
module Tallies {
  import opened Group
  import opened Protocol

  datatype Tally = Tally(ups: nat, upsSeen: nat, downs: nat, downsSeen: nat, named: multiset<nat>, gone: multiset<nat>)

  const ZERO := Tally(0, 0, 0, 0, multiset{}, multiset{})

  /** The tally after step s, taken in state c. */
  ghost function Counted(c: Cell, s: Step, t: Tally): Tally
  {
    match s
    case ScaleUp(steps, end) => Up(t, end.Replied? && AfterScaleUp(c.view, 1, steps).1.Some?)
    case ScaleDown(_, _, end) => Down(t, multiset(Delivered(c, s)), end.Replied?)
    case Confirm(names, steps, end) => Gone(t, names, end.Replied? && AfterConfirm(c.view, names, steps).1)
    case _ => t
  }

  function Up(t: Tally, ok: bool): Tally { t.(ups := t.ups + 1, upsSeen := t.upsSeen + if ok then 1 else 0) }

  function Down(t: Tally, names: multiset<nat>, ok: bool): Tally
  {
    if ok then t.(downs := t.downs + 1, downsSeen := t.downsSeen + 1, named := t.named + names)
    else t.(downs := t.downs + 1)
  }

  function Gone(t: Tally, names: seq<nat>, ok: bool): Tally { if ok then t.(gone := t.gone + multiset(names)) else t }

  ghost function TallyOf(c: Cell, run: seq<Step>): Tally
  {
    if |run| == 0 then ZERO
    else
      var front := run[..|run| - 1];
      Counted(After(c, front), run[|run| - 1], TallyOf(c, front))
  }

  lemma TallyExtend(c: Cell, run: seq<Step>, s: Step)
    ensures TallyOf(c, run + [s]) == Counted(After(c, run), s, TallyOf(c, run))
  {
    assert (run + [s])[..|run|] == run;
  }

  lemma {:induction false} SeenIsExecuted(c: Cell, run: seq<Step>)
    ensures TallyOf(c, run).upsSeen <= TallyOf(c, run).ups && TallyOf(c, run).downsSeen <= TallyOf(c, run).downs
  {
    if |run| > 0 { SeenIsExecuted(c, run[..|run| - 1]); }
  }

  /** The names whose removal was acknowledged had been delivered by scaleDown replies before. */
  lemma {:induction false} GoneWasAnnounced(c: Cell, run: seq<Step>, p: nat)
    requires IsRun(c, run) && c.pending == {} && p in TallyOf(c, run).gone
    ensures exists j :: Announces(c, run, j, p)
  {
    var n := |run| - 1;
    var front := run[..n];
    FrontRun(c, run);
    if p in TallyOf(c, front).gone {
      GoneWasAnnounced(c, front, p);
      var j :| Announces(c, front, j, p);
      assert Announces(c, run, j, p);
    } else {
      assert run[n].Confirm? && p in run[n].names && p in SetOf(run[n].names);
      assert At(c, run, n) == After(c, front) && Enabled(At(c, run, n), run[n]);
      PendingWasNamed(c, run, n, p);
      var j :| NamedSince(c, run, j, n, p);
      assert Announces(c, run, j, p);
    }
  }

  // ----- How a process leaves its group -----

  /** Process p leaves the group at step k. */
  ghost predicate Leaves(c: Cell, run: seq<Step>, k: nat, p: nat)
  {
    k < |run| && p in At(c, run, k).view.procs && p !in At(c, run, k + 1).view.procs
  }

  /** It leaves by a confirmScaleDown. */
  ghost predicate LeavesConfirmed(c: Cell, run: seq<Step>, k: nat, p: nat) { Leaves(c, run, k, p) && run[k].Confirm? }

  /** It leaves by a confirmScaleDown or in a crash. */
  ghost predicate LeavesRightly(c: Cell, run: seq<Step>, k: nat, p: nat)
  {
    Leaves(c, run, k, p) && (run[k].Confirm? || Crashes(run[k]))
  }

  lemma LeavesFront(c: Cell, run: seq<Step>, k: nat, p: nat)
    requires |run| > 0 && Leaves(c, run[..|run| - 1], k, p)
    ensures Leaves(c, run, k, p) && run[k] == run[..|run| - 1][k]
  {
    var front := run[..|run| - 1];
    assert run[..k] == front[..k] && run[..k + 1] == front[..k + 1];
  }

  /** A process that was in the group and no longer is left it by a confirmScaleDown or in a crash. */
  lemma {:induction false} LeftSomewhere(c: Cell, run: seq<Step>, a: nat, b: nat, p: nat)
    requires IsRun(c, run) && a <= b <= |run|
    requires p in At(c, run, a).view.procs && p !in At(c, run, b).view.procs
    ensures exists k :: a <= k < b && LeavesRightly(c, run, k, p)
    decreases b - a
  {
    if p in At(c, run, b - 1).view.procs {
      AtStep(c, run, b - 1);
      LeavesBy(At(c, run, b - 1), run[b - 1], p);
      assert LeavesRightly(c, run, b - 1, p);
    } else {
      LeftSomewhere(c, run, a, b - 1, p);
    }
  }

  lemma LeavesBy(c: Cell, s: Step, p: nat)
    requires Enabled(c, s) && p in c.view.procs && p !in Apply(c, s).view.procs
    ensures s.Confirm? || Crashes(s)
  {
    if s.ScaleUp? { ScaleUpKeepsProcesses(c.view, 1, s.steps); }
  }

  /** Every removal of p that is acknowledged after moment n is one that the node carried out after it. */
  lemma {:induction false} GoneWasRemoved(c: Cell, run: seq<Step>, n: nat, p: nat)
    requires n <= |run| && TallyOf(c, run[..n]).gone[p] < TallyOf(c, run).gone[p]
    ensures exists k :: n <= k && LeavesConfirmed(c, run, k, p)
  {
    assert run[..|run|] == run;
    var last: nat := |run| - 1;
    var front := run[..last];
    assert front[..n] == run[..n];
    if TallyOf(c, front).gone[p] == TallyOf(c, run).gone[p] {
      GoneWasRemoved(c, front, n, p);
      var k :| n <= k && LeavesConfirmed(c, front, k, p);
      LeavesFront(c, run, k, p);
      assert LeavesConfirmed(c, run, k, p);
    } else {
      GoneLast(c, run, p);
    }
  }

  lemma GoneLast(c: Cell, run: seq<Step>, p: nat)
    requires |run| > 0 && TallyOf(c, run[..|run| - 1]).gone[p] != TallyOf(c, run).gone[p]
    ensures LeavesConfirmed(c, run, |run| - 1, p)
  {
    var last: nat := |run| - 1;
    GoneMore(At(c, run, last), run[last], TallyOf(c, run[..last]), p);
    AtStep(c, run, last);
    ConfirmRemoves(At(c, run, last), run[last], p);
  }

  lemma GoneMore(c: Cell, s: Step, t: Tally, p: nat)
    requires Counted(c, s, t).gone[p] != t.gone[p]
    ensures s.Confirm? && s.end.Replied? && p in s.names && AfterConfirm(c.view, s.names, s.steps).1
  {
  }

  lemma ConfirmRemoves(c: Cell, s: Step, p: nat)
    requires s.Confirm? && s.end.Replied? && p in s.names && AfterConfirm(c.view, s.names, s.steps).1
    ensures p in c.view.procs && p !in Apply(c, s).view.procs
  {
    assert s.names[..|s.names|] == s.names && p in SetOf(s.names);
  }
}
