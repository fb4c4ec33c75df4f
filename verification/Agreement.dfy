/** When the three views of a group agree, and when everything alive is on disk, as exact facts about the
    history of the group: failed re-reads leave the views apart, completed calls and crashes bring them
    together again. */
module Agreement {
  import opened Names
  import opened Group
  import opened Protocol

  // ----- How far disk and group are apart -----

  /** The re-read after the write fails, or nothing is changed in memory after it. */
  predicate Halts(s: Step) { (s.ScaleUp? || s.Confirm?) && s.steps <= 2 }

  /** numprocs on disk minus the size of the group, after a step. */
  function LagAfter(c: Cell, s: Step, lag: int): int
  {
    if Crashes(s) then 0
    else if !Writes(c, s) then lag
    else if !Halts(s) then 0
    else if s.ScaleUp? then 1 else -1
  }

  ghost function Lag(c: Cell, run: seq<Step>): int
  {
    if |run| == 0 then 0
    else LagAfter(After(c, run[..|run| - 1]), run[|run| - 1], Lag(c, run[..|run| - 1]))
  }

  // ----- Left-over entries of the configuration list -----

  /** A confirmScaleDown stops between deleting the processes and updating the list. */
  predicate Tears(c: Cell, s: Step)
  {
    s.Confirm? && Writes(c, s) && !Crashes(s) && 2 < s.steps <= 2 + |s.names|
  }

  /** The processes that have been deleted but are still listed, after a step. */
  function StaleAfter(c: Cell, s: Step, stale: set<nat>): set<nat>
  {
    if Crashes(s) then {}
    else if !s.Confirm? || !Writes(c, s) || Halts(s) then stale
    else if Tears(c, s) then stale + SetOf(s.names) else stale - SetOf(s.names)
  }

  ghost function Stale(c: Cell, run: seq<Step>): set<nat>
  {
    if |run| == 0 then {}
    else StaleAfter(After(c, run[..|run| - 1]), run[|run| - 1], Stale(c, run[..|run| - 1]))
  }

  function Own(n: nat, x: nat): nat { if x < n then 1 else 0 }

  function Entries(configs: seq<nat>, x: nat): nat
  {
    if |configs| == 0 then 0
    else Entries(configs[..|configs| - 1], x) + if configs[|configs| - 1] == x then 1 else 0
  }

  /** The list is the group's processes in order, but for entries of stale ones. */
  ghost predicate InOrder(configs: seq<nat>, n: nat, stale: set<nat>)
  {
    Without(configs, stale) == Without(Range(0, n), stale)
  }

  /** No process of the group is missing, and the stale ones are those with entries too many. */
  ghost predicate OneToo(configs: seq<nat>, n: nat, stale: set<nat>, x: nat)
  {
    Entries(configs, x) >= Own(n, x) && (x in stale <==> Entries(configs, x) > Own(n, x))
  }

  ghost predicate Surplus(configs: seq<nat>, n: nat, stale: set<nat>)
  {
    forall x {:trigger OneToo(configs, n, stale, x)} :: OneToo(configs, n, stale, x)
  }

  ghost predicate Listed(configs: seq<nat>, n: nat, stale: set<nat>)
  {
    InOrder(configs, n, stale) && Surplus(configs, n, stale)
  }

  lemma {:induction false} EntriesWithout(configs: seq<nat>, gone: set<nat>, x: nat)
    ensures Entries(Without(configs, gone), x) == if x in gone then 0 else Entries(configs, x)
  {
    if |configs| > 0 {
      var front, last := configs[..|configs| - 1], configs[|configs| - 1];
      EntriesWithout(front, gone, x);
      if last !in gone {
        EntriesAppend(Without(front, gone), last, x);
      } else {
        assert Without(configs, gone) == Without(front, gone);
      }
    }
  }

  lemma EntriesAppend(configs: seq<nat>, y: nat, x: nat)
    ensures Entries(configs + [y], x) == Entries(configs, x) + if y == x then 1 else 0
  {
    assert (configs + [y])[..|configs|] == configs;
  }

  lemma {:induction false} WithoutTwice(configs: seq<nat>, a: set<nat>, b: set<nat>)
    ensures Without(Without(configs, a), b) == Without(configs, a + b)
  {
    if |configs| > 0 {
      var front, last := configs[..|configs| - 1], configs[|configs| - 1];
      WithoutTwice(front, a, b);
      if last !in a {
        WithoutAppend(Without(front, a), last, b);
      } else {
        assert Without(configs, a) == Without(front, a);
      }
    }
  }

  lemma WithoutAppend(configs: seq<nat>, x: nat, gone: set<nat>)
    ensures Without(configs + [x], gone) == Without(configs, gone) + if x in gone then [] else [x]
  {
    assert (configs + [x])[..|configs|] == configs;
  }

  lemma {:induction false} RangeEntries(n: nat, x: nat)
    ensures Entries(Range(0, n), x) == Own(n, x)
  {
    if n > 0 {
      RangeEntries(n - 1, x);
    }
  }

  lemma RangeListed(n: nat)
    ensures Listed(Range(0, n), n, {})
  {
    var none: set<nat> := {};
    var all := Range(0, n);
    forall x
      ensures OneToo(all, n, none, x)
    {
      RangeEntries(n, x);
      assert Entries(all, x) == Own(n, x);
    }
  }

  lemma RangeNext(n: nat)
    ensures Range(0, n + 1) == Range(0, n) + [n]
  {
  }

  lemma InjectedListed(configs: seq<nat>, n: nat, stale: set<nat>)
    requires Listed(configs, n, stale)
    ensures Listed(configs + [n], n + 1, stale)
  {
    assert InOrder(configs + [n], n + 1, stale) by {
      WithoutAppend(configs, n, stale);
      WithoutAppend(Range(0, n), n, stale);
      RangeNext(n);
    }
    var longer, m := configs + [n], n + 1;
    forall x
      ensures OneToo(longer, m, stale, x)
    {
      assert OneToo(configs, n, stale, x);
      EntriesAppend(configs, n, x);
    }
  }

  lemma TornOrder(configs: seq<nat>, n: nat, stale: set<nat>)
    requires InOrder(configs, n + 1, stale)
    ensures InOrder(configs, n, stale + {n})
  {
    WithoutTwice(configs, stale, {n});
    WithoutTwice(Range(0, n + 1), stale, {n});
    RangeNext(n);
    WithoutAppend(Range(0, n), n, stale + {n});
  }

  lemma TornListed(configs: seq<nat>, n: nat, stale: set<nat>)
    requires Listed(configs, n + 1, stale)
    ensures Listed(configs, n, stale + {n})
  {
    var torn := stale + {n};
    TornOrder(configs, n, stale);
    forall x
      ensures OneToo(configs, n, torn, x)
    {
      assert OneToo(configs, n + 1, stale, x);
    }
  }

  lemma RemovedOrder(configs: seq<nat>, n: nat, stale: set<nat>)
    requires InOrder(configs, n + 1, stale)
    ensures InOrder(Without(configs, {n}), n, stale - {n})
  {
    TornOrder(configs, n, stale);
    assert {n} + (stale - {n}) == stale + {n};
    WithoutTwice(configs, {n}, stale - {n});
    WithoutTwice(Range(0, n), {n}, stale - {n});
    RangeMembers(0, n);
    WithoutNone(Range(0, n), {n});
  }

  lemma RemovedListed(configs: seq<nat>, n: nat, stale: set<nat>)
    requires Listed(configs, n + 1, stale)
    ensures Listed(Without(configs, {n}), n, stale - {n})
  {
    var left, rest := Without(configs, {n}), stale - {n};
    RemovedOrder(configs, n, stale);
    forall x
      ensures OneToo(left, n, rest, x)
    {
      assert OneToo(configs, n + 1, stale, x);
      EntriesWithout(configs, {n}, x);
    }
  }

  // ----- The books -----

  ghost predicate Books(c: Cell, lag: int, stale: set<nat>)
  {
    c.view.disk == |c.view.procs| + lag && Listed(c.view.configs, |c.view.procs|, stale)
  }

  lemma CrashBooks(c: Cell, s: Step)
    requires Good(c) && Enabled(c, s) && Benign(c, s) && Crashes(s)
    ensures Books(Apply(c, s), 0, {})
  {
    GoodStep(c, s);
    EffectGood(c, s);
    RestartedContiguous(Effect(c, s));
    RangeListed(Max(0, Effect(c, s).disk));
  }

  lemma ScaleUpViews(v: GroupView, steps: nat)
    requires v.keyed && Contiguous(v.procs) && steps > 0
    ensures var after, n := AfterScaleUp(v, 1, steps).0, |v.procs|;
            && after.disk == n + 1 && |after.procs| == n + (if steps <= 2 then 0 else 1)
            && after.configs == if steps <= 2 then v.configs else v.configs + [n]
  {
    ScaleUpContiguous(v, 1, steps);
    assert Range(|v.procs|, 0) == [] && Range(|v.procs|, 1) == [|v.procs|];
    assert v.configs + [] == v.configs;
  }

  lemma ScaleUpBooks(c: Cell, s: Step, lag: int, stale: set<nat>)
    requires Good(c) && s.ScaleUp? && !Crashes(s) && Books(c, lag, stale)
    ensures Books(Apply(c, s), LagAfter(c, s, lag), stale)
  {
    if s.steps > 0 {
      ScaleUpViews(c.view, s.steps);
      InjectedListed(c.view.configs, |c.view.procs|, stale);
    }
  }

  lemma ConfirmViews(c: Cell, s: Step)
    requires Good(c) && s.Confirm? && Enabled(c, s) && Writes(c, s)
    ensures var v, after, top := c.view, Effect(c, s), |c.view.procs| - 1;
            && top >= 0 && s.names == [top] && after.disk == top
            && |after.procs| == (if s.steps <= 2 then top + 1 else top)
            && after.configs == if s.steps <= 3 then v.configs else Without(v.configs, {top})
  {
    ConfirmStep(c, s);
    RemoveTop(c.view.procs);
  }

  lemma ConfirmBooks(c: Cell, s: Step, lag: int, stale: set<nat>)
    requires Good(c) && s.Confirm? && Enabled(c, s) && !Crashes(s) && Books(c, lag, stale)
    ensures Books(Apply(c, s), LagAfter(c, s, lag), StaleAfter(c, s, stale))
  {
    if Writes(c, s) {
      ConfirmedBooks(c, s, stale);
    } else {
      ConfirmWrites(c, s);
    }
  }

  lemma ConfirmedBooks(c: Cell, s: Step, stale: set<nat>)
    requires Good(c) && s.Confirm? && Enabled(c, s) && !Crashes(s) && Writes(c, s)
    requires Listed(c.view.configs, |c.view.procs|, stale)
    ensures Books(Apply(c, s), if Halts(s) then -1 else 0, StaleAfter(c, s, stale))
  {
    ConfirmViews(c, s);
    ConfirmLists(c.view.configs, |c.view.procs| - 1, stale);
    SetOfOne(|c.view.procs| - 1);
  }

  lemma SetOfOne(x: nat)
    ensures SetOf([x]) == {x}
  {
  }

  lemma ConfirmLists(configs: seq<nat>, n: nat, stale: set<nat>)
    requires Listed(configs, n + 1, stale)
    ensures Listed(configs, n, stale + {n}) && Listed(Without(configs, {n}), n, stale - {n})
  {
    TornListed(configs, n, stale);
    RemovedListed(configs, n, stale);
  }

  /** One step keeps the books. */
  lemma BooksStep(c: Cell, s: Step, lag: int, stale: set<nat>)
    requires Good(c) && Enabled(c, s) && Benign(c, s) && Books(c, lag, stale)
    ensures Books(Apply(c, s), LagAfter(c, s, lag), StaleAfter(c, s, stale))
  {
    if Crashes(s) {
      CrashBooks(c, s);
    } else {
      match s
      case Env(procs) => SameKeys(c.view.procs, procs);
      case ScaleDown(_, procs, _) => SameKeys(c.view.procs, procs);
      case ScaleUp(_, _) => ScaleUpBooks(c, s, lag, stale);
      case Confirm(_, _, _) => ConfirmBooks(c, s, lag, stale);
      case _ =>
    }
  }

  lemma {:induction false} BooksRun(c: Cell, run: seq<Step>)
    requires IsRun(c, run) && Initial(c)
    requires forall j :: 0 <= j < |run| ==> Benign(At(c, run, j), run[j])
    ensures Good(After(c, run)) && Books(After(c, run), Lag(c, run), Stale(c, run))
  {
    if |run| == 0 {
      RangeListed(|c.view.procs|);
    } else {
      var n := |run| - 1;
      FrontRun(c, run);
      BooksRun(c, run[..n]);
      assert At(c, run, n) == After(c, run[..n]);
      GoodStep(At(c, run, n), run[n]);
      BooksStep(At(c, run, n), run[n], Lag(c, run[..n]), Stale(c, run[..n]));
    }
  }

  /** The views agree exactly when disk and group do and no deleted process is left in the list. */
  lemma BooksSettled(c: Cell, lag: int, stale: set<nat>)
    requires Books(c, lag, stale)
    ensures Settled(c) <==> lag == 0 && stale == {}
  {
    var n, configs := |c.view.procs|, c.view.configs;
    if stale == {} {
      WithoutNone(configs, {});
      WithoutNone(Range(0, n), {});
    } else {
      var x :| x in stale;
      assert OneToo(configs, n, stale, x);
      RangeEntries(n, x);
    }
  }

  /** In every state of every run without bad steps, failed re-reads included: disk, memory and configuration
      list agree exactly when the last write was followed up or a crash came after it, and every process that
      was deleted while the list was not updated has been confirmed again or wiped out by a crash. */
  lemma SettledExactly(c: Cell, run: seq<Step>)
    requires IsRun(c, run) && Initial(c)
    requires forall j :: 0 <= j < |run| ==> Benign(At(c, run, j), run[j])
    ensures Settled(After(c, run)) <==> Lag(c, run) == 0 && Stale(c, run) == {}
  {
    BooksRun(c, run);
    BooksSettled(After(c, run), Lag(c, run), Stale(c, run));
  }

  // ----- The last write -----

  /** Step k was the last to write the disk, and the node has not crashed since, nor in it. */
  ghost predicate LastWrite(c: Cell, run: seq<Step>, k: nat)
  {
    && k < |run| && Writes(At(c, run, k), run[k]) && !Crashes(run[k])
    && forall j :: k < j < |run| ==> !Crashes(run[j]) && !Writes(At(c, run, j), run[j])
  }

  /** The last write was that of a scaleUp, or of a confirmScaleDown, and was not followed up. */
  ghost predicate HalfScaleUp(c: Cell, run: seq<Step>, k: nat)
  {
    LastWrite(c, run, k) && run[k].ScaleUp? && Halts(run[k])
  }

  ghost predicate HalfConfirm(c: Cell, run: seq<Step>, k: nat)
  {
    LastWrite(c, run, k) && run[k].Confirm? && Halts(run[k])
  }

  lemma LastWriteEarlier(c: Cell, run: seq<Step>, k: nat)
    requires |run| > 0
    requires var n := |run| - 1; !Crashes(run[n]) && !Writes(At(c, run, n), run[n])
    ensures LastWrite(c, run, k) <==> LastWrite(c, run[..|run| - 1], k)
  {
    FrontRun(c, run);
    if LastWrite(c, run[..|run| - 1], k) { StillLastWrite(c, run, k); }
  }

  lemma StillLastWrite(c: Cell, run: seq<Step>, k: nat)
    requires |run| > 0 && LastWrite(c, run[..|run| - 1], k)
    requires var n := |run| - 1; !Crashes(run[n]) && !Writes(At(c, run, n), run[n])
    ensures LastWrite(c, run, k)
  {
    var front := run[..|run| - 1];
    FrontRun(c, run);
    forall j | k < j < |run|
      ensures !Crashes(run[j]) && !Writes(At(c, run, j), run[j])
    {
      assert j < |front| ==> At(c, front, j) == At(c, run, j);
    }
  }

  lemma LastWriteNow(c: Cell, run: seq<Step>, k: nat)
    requires |run| > 0
    requires var n := |run| - 1; Crashes(run[n]) || Writes(At(c, run, n), run[n])
    ensures LastWrite(c, run, k) <==> k == |run| - 1 && !Crashes(run[k])
  {
  }

  /** Disk and group differ exactly when the last write was not followed up, and which way says which call. */
  lemma {:induction false} LagExactly(c: Cell, run: seq<Step>)
    ensures Lag(c, run) == 1 <==> exists k :: HalfScaleUp(c, run, k)
    ensures Lag(c, run) == -1 <==> exists k :: HalfConfirm(c, run, k)
    ensures -1 <= Lag(c, run) <= 1
  {
    if |run| > 0 {
      var n: nat := |run| - 1;
      var front := run[..n];
      LagExactly(c, front);
      assert At(c, run, n) == After(c, front);
      if Crashes(run[n]) || Writes(At(c, run, n), run[n]) {
        forall k: nat
          ensures HalfScaleUp(c, run, k) <==> k == n && !Crashes(run[n]) && run[n].ScaleUp? && Halts(run[n])
          ensures HalfConfirm(c, run, k) <==> k == n && !Crashes(run[n]) && run[n].Confirm? && Halts(run[n])
        {
          LastWriteNow(c, run, k);
        }
        assert HalfScaleUp(c, run, n) <==> !Crashes(run[n]) && run[n].ScaleUp? && Halts(run[n]);
        assert HalfConfirm(c, run, n) <==> !Crashes(run[n]) && run[n].Confirm? && Halts(run[n]);
      } else {
        forall k: nat
          ensures HalfScaleUp(c, run, k) <==> HalfScaleUp(c, front, k)
          ensures HalfConfirm(c, run, k) <==> HalfConfirm(c, front, k)
        {
          LastWriteEarlier(c, run, k);
        }
      }
    }
  }

  /** So over runs without bad steps: the disk is ahead of the group, by one, exactly when the last write was
      that of a scaleUp and was not followed up, and behind, by one, when it was that of a confirmScaleDown. */
  lemma DiskOffExactly(c: Cell, run: seq<Step>)
    requires IsRun(c, run) && Initial(c)
    requires forall j :: 0 <= j < |run| ==> Benign(At(c, run, j), run[j])
    ensures var v := After(c, run).view;
            && (v.disk > |v.procs| <==> exists k :: HalfScaleUp(c, run, k))
            && (v.disk < |v.procs| <==> exists k :: HalfConfirm(c, run, k))
            && |v.procs| - 1 <= v.disk <= |v.procs| + 1
  {
    BooksRun(c, run);
    LagExactly(c, run);
  }

  lemma {:induction false} NothingStale(c: Cell, run: seq<Step>)
    requires forall j :: 0 <= j < |run| ==> !Tears(At(c, run, j), run[j])
    ensures Stale(c, run) == {}
  {
    if |run| > 0 {
      FrontRun(c, run);
      NothingStale(c, run[..|run| - 1]);
      assert At(c, run, |run| - 1) == After(c, run[..|run| - 1]);
    }
  }

  /** Nothing in the code can raise between the deletions and the update of the list. Then the views agree
      exactly unless the last write was not followed up: a retry or a crash heals a failed re-read. */
  lemma ViewsAgreeExactly(c: Cell, run: seq<Step>)
    requires IsRun(c, run) && Initial(c)
    requires forall j :: 0 <= j < |run| ==> Benign(At(c, run, j), run[j]) && !Tears(At(c, run, j), run[j])
    ensures Settled(After(c, run)) <==> forall k :: !HalfScaleUp(c, run, k) && !HalfConfirm(c, run, k)
  {
    SettledExactly(c, run);
    NothingStale(c, run);
    LagExactly(c, run);
  }

  /** A state in which they do not: after the first step of HoleRun, a scaleUp whose re-read failed. */
  lemma ViewsDisagree(c: Cell, n: nat)
    requires Initial(c) && |c.view.procs| == n + 1
    ensures var run := [HoleRun(c.view.procs, n)[0]]; IsRun(c, run) && HalfScaleUp(c, run, 0) && !Settled(After(c, run))
  {
    var s := HoleRun(c.view.procs, n)[0];
    HoleUp(c);
    assert [s][..0] == [];
  }

  // ----- Everything alive is on disk -----

  /** The group has a process the disk does not list. */
  ghost predicate Short(v: GroupView) { v.disk < |v.procs| }

  /** What makes it so, step by step. */
  lemma ShortExactly(c: Cell, s: Step)
    requires Good(c) && Enabled(c, s) && Benign(c, s)
    ensures Short(Apply(c, s).view) <==>
              || (s.Confirm? && Writes(c, s) && !Crashes(s) && s.steps <= 2)
              || (Short(c.view) && !Crashes(s) && !Writes(c, s))
  {
    EffectGood(c, s);
    RestartedContiguous(Effect(c, s));
    if !Crashes(s) {
      match s
      case Env(procs) => SameKeys(c.view.procs, procs);
      case ScaleDown(_, procs, _) => SameKeys(c.view.procs, procs);
      case ScaleUp(steps, _) => if steps > 0 { ScaleUpContiguous(c.view, 1, steps); }
      case Confirm(_, _, _) =>
        ConfirmStep(c, s);
        if |c.view.procs| > 0 { RemoveTop(c.view.procs); }
      case _ =>
    }
  }

  /** Something can happen after which not everything alive is on disk. */
  ghost predicate AtRisk(c: Cell) { exists s :: Enabled(c, s) && !Covered(Apply(c, s).view) }

  lemma AtRiskExactly(c: Cell)
    requires Good(c) && Covered(c.view)
    ensures AtRisk(c) <==> Short(c.view)
  {
    CoveredExactly(c);
  }

  /** Over runs: everything alive stays on disk, whatever happens next, exactly unless the last write was that
      of a confirmScaleDown which was not followed up. */
  lemma AtRiskOverRuns(c: Cell, run: seq<Step>)
    requires IsRun(c, run) && Initial(c) && Covered(After(c, run).view)
    requires forall j :: 0 <= j < |run| ==> Benign(At(c, run, j), run[j])
    ensures AtRisk(After(c, run)) <==> exists k :: HalfConfirm(c, run, k)
  {
    BooksRun(c, run);
    LagExactly(c, run);
    AtRiskExactly(After(c, run));
  }
}
