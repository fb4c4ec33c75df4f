/** One program's process group on one Supervisor node, as three views that must agree: the live
    processes, the in-memory configuration list, and `numprocs` on disk. The functions say what each
    plugin operation leaves behind, also when it stops half way. */
module Group {
  import opened Names

  datatype ProcState = Stopped | Starting | Running | Backoff | Stopping | Exited | Fatal | Unknown

  /** Counted as a worker by the daemon. */
  predicate IsActive(s: ProcState) { s.Running? || s.Starting? || s.Backoff? }

  /** Safe to remove. STOPPING is neither active nor stopped. */
  predicate IsStopped(s: ProcState) { s.Stopped? || s.Exited? || s.Fatal? || s.Unknown? }

  /** Which states these are; every state but STOPPING is of one kind. */
  lemma StatesAre(s: ProcState)
    ensures IsActive(s) <==> s in {ProcState.Running, ProcState.Starting, ProcState.Backoff}
    ensures IsStopped(s) <==> s in {ProcState.Stopped, ProcState.Exited, ProcState.Fatal, ProcState.Unknown}
    ensures !(IsActive(s) && IsStopped(s)) && (IsActive(s) || IsStopped(s) <==> s != ProcState.Stopping)
  {
  }

  /** What asking a running process to stop may lead to: the signal is sent, the process is given up,
      or the kill fails. */
  predicate StopOutcome(before: ProcState, after: ProcState)
    requires IsActive(before)
  {
    if before.Backoff? then after.Fatal? || after.Stopped? || after.Unknown?
    else after.Stopping? || after.Unknown?
  }

  /** How processes are named: process number `start + i` padded to `width` after a fixed prefix. */
  datatype Template = Template(prefix: string, width: nat, start: nat) {
    function NameOf(i: nat): string { Name(prefix, width, start + i) }

    predicate Before(i: nat, j: nat) { Less(NameOf(i), NameOf(j)) }

    /** The numbers of n processes have no more digits than the first numeral has characters. */
    predicate Fits(n: nat) { start + n <= Pow10(Size(start, width)) }

    /** Of n processes the last one has the greatest name. */
    ghost predicate LastOnTop(n: nat) { n > 0 ==> Above(n - 1) }

    /** Its name is greater than those of all processes below it. */
    ghost predicate Above(last: nat) { forall i: nat :: i < last ==> Before(i, last) }
  }

  /** The names of n processes sort by number exactly when the numbers fit. */
  lemma FitsExactly(t: Template, n: nat)
    ensures (forall i: nat, j: nat :: i < j < n ==> t.Before(i, j)) <==> t.Fits(n)
  {
    NamesFollowNumbersExactly(t.prefix, t.width, t.start, n);
    if t.Fits(n) {
      forall i: nat, j: nat | i < j < n
        ensures t.Before(i, j)
      {
        assert t.start <= t.start + i < t.start + j < t.start + n;
      }
    } else {
      var i: nat, j: nat :|
        t.start <= i < j < t.start + n && !Less(Name(t.prefix, t.width, i), Name(t.prefix, t.width, j));
      assert !t.Before(i - t.start, j - t.start);
    }
  }

  /** The last process has the greatest name exactly when the numbers fit or its number is nines but for the
      last digit. */
  lemma LastOnTopExactly(t: Template, n: nat)
    requires n >= 1
    ensures var last := t.start + n - 1;
            t.LastOnTop(n) <==> t.Fits(n) || last >= Pow10(Size(last, t.width)) - 10
  {
    LastIsGreatestExactly(t.prefix, t.width, t.start, n);
    if LastIsGreatest(t.prefix, t.width, t.start, n) {
      var last: nat := n - 1;
      forall i: nat | i < last
        ensures t.Before(i, last)
      {
        assert t.start <= t.start + i < t.start + n - 1;
      }
    } else {
      var i: nat :| t.start <= i < t.start + n - 1
        && !Less(Name(t.prefix, t.width, i), Name(t.prefix, t.width, t.start + n - 1));
      assert !t.Before(i - t.start, n - 1);
    }
  }

  lemma FitsInOrder(t: Template, n: nat, i: nat, j: nat)
    requires t.Fits(n) && i < j < n
    ensures t.Before(i, j) && !t.Before(j, i)
  {
    FitsExactly(t, n);
    assert t.Before(i, j);
    LessAsymmetric(t.NameOf(i), t.NameOf(j));
  }

  datatype GroupView = GroupView(
    template: Template,
    procs: map<nat, ProcState>,
    configs: seq<nat>,
    keyed: bool,   // the program's section has a line the editor recognises
    disk: int)     // numprocs as the configuration on disk gives it

  function WriteDisk(v: GroupView, n: int): GroupView
  {
    if v.keyed then v.(disk := n) else v
  }

  function SetOf(s: seq<nat>): set<nat> { set x | x in s }

  /** The numbers lo, lo+1, ..., lo+count-1. */
  function Range(lo: nat, count: nat): (r: seq<nat>)
    ensures |r| == count && forall k :: 0 <= k < count ==> r[k] == lo + k
  {
    if count == 0 then [] else Range(lo, count - 1) + [lo + count - 1]
  }

  lemma {:induction false} RangeMembers(lo: nat, count: nat)
    ensures forall x: nat :: x in Range(lo, count) <==> lo <= x < lo + count
  {
    if count > 0 {
      RangeMembers(lo, count - 1);
    }
  }

  /** The numbers n-1, n-2, ..., n-count. */
  function Downward(n: nat, count: nat): (r: seq<nat>)
    requires count <= n
    ensures |r| == count && forall k :: 0 <= k < count ==> r[k] == n - 1 - k
  {
    seq(count, k requires 0 <= k < count => n - 1 - k)
  }

  // ----- scaleUp -----

  /** The process numbers below hi that the group does not have, ascending. */
  function Missing(procs: map<nat, ProcState>, hi: int): seq<nat>
    decreases hi
  {
    if hi <= 0 then []
    else Missing(procs, hi - 1) + if hi - 1 in procs then [] else [hi - 1]
  }

  /** New processes start out STOPPED; the Supervisor main loop spawns them later. */
  function Spawn(procs: map<nat, ProcState>, names: seq<nat>): map<nat, ProcState>
  {
    if |names| == 0 then procs
    else Spawn(procs, names[..|names| - 1])[names[|names| - 1] := ProcState.Stopped]
  }

  /** scaleUp getting through its first `steps` effects: the disk write, the re-read, then one
      injected process at a time. The reply is None when it stopped before the end. */
  function AfterScaleUp(v: GroupView, count: nat, steps: nat): (GroupView, Option<seq<nat>>)
  {
    if steps == 0 then (v, None)
    else
      var written := WriteDisk(v, |v.procs| + count);
      if steps == 1 then (written, None)
      else
        var missing := Missing(v.procs, written.disk);
        var k := Min(steps - 2, |missing|);
        var injected := written.(procs := Spawn(v.procs, missing[..k]), configs := v.configs + missing[..k]);
        (injected, if k == |missing| then Some(missing) else None)
  }

  // ----- scaleDown -----

  /** The processes a scaleDown of `count` selects: the greatest names. */
  ghost predicate IsTop(v: GroupView, count: nat, top: seq<nat>)
  {
    && |top| == Min(count, |v.procs|)
    && (forall k :: 0 <= k < |top| ==> top[k] in v.procs)
    && (forall j, k :: 0 <= j < k < |top| ==> v.template.Before(top[k], top[j]))
    && (forall k, i :: 0 <= k < |top| && i in v.procs && i !in top ==> v.template.Before(i, top[k]))
  }

  /** The names scaleDown reports: a process already STOPPING is passed over in silence. */
  function Reported(procs: map<nat, ProcState>, top: seq<nat>): seq<nat>
    requires forall k :: 0 <= k < |top| ==> top[k] in procs
  {
    if |top| == 0 then []
    else Reported(procs, top[..|top| - 1]) +
         if procs[top[|top| - 1]].Stopping? then [] else [top[|top| - 1]]
  }

  /** Only the selected running processes change, each to a possible outcome of its stop. */
  ghost predicate StopsOnly(before: map<nat, ProcState>, top: seq<nat>, after: map<nat, ProcState>)
  {
    && after.Keys == before.Keys
    && forall i :: i in before ==>
         if i in top && IsActive(before[i]) then StopOutcome(before[i], after[i]) else after[i] == before[i]
  }

  lemma {:induction false} ReportedMembers(procs: map<nat, ProcState>, top: seq<nat>)
    requires forall k :: 0 <= k < |top| ==> top[k] in procs
    ensures forall i :: i in Reported(procs, top) <==> i in top && !procs[i].Stopping?
  {
    if |top| > 0 {
      var front := top[..|top| - 1];
      assert top == front + [top[|top| - 1]];
      ReportedMembers(procs, front);
    }
  }

  // ----- confirmScaleDown -----

  predicate Removable(procs: map<nat, ProcState>, names: seq<nat>)
  {
    forall k :: 0 <= k < |names| ==> names[k] in procs && IsStopped(procs[names[k]])
  }

  /** How many names the deletion loop gets through: a repeated name is a KeyError. */
  function DistinctPrefix(names: seq<nat>): (k: nat)
    ensures k <= |names|
  {
    if |names| == 0 then 0
    else
      var front := names[..|names| - 1];
      if DistinctPrefix(front) == |front| && names[|names| - 1] !in front then |names| else DistinctPrefix(front)
  }

  predicate Distinct(names: seq<nat>) { forall j, k :: 0 <= j < k < |names| ==> names[j] != names[k] }

  function Without(configs: seq<nat>, gone: set<nat>): seq<nat>
  {
    if |configs| == 0 then []
    else Without(configs[..|configs| - 1], gone) +
         if configs[|configs| - 1] in gone then [] else [configs[|configs| - 1]]
  }

  lemma {:induction false} WithoutMembers(configs: seq<nat>, gone: set<nat>)
    ensures forall x :: x in Without(configs, gone) <==> x in configs && x !in gone
  {
    if |configs| > 0 {
      var front := configs[..|configs| - 1];
      assert configs == front + [configs[|configs| - 1]];
      WithoutMembers(front, gone);
    }
  }

  /** confirmScaleDown getting through its first `steps` effects: the disk write, the re-read, one
      deletion at a time, then the configuration list. */
  function AfterConfirm(v: GroupView, names: seq<nat>, steps: nat): (GroupView, bool)
  {
    if steps == 0 || !Removable(v.procs, names) then (v, false)
    else
      var written := WriteDisk(v, |v.procs| - |names|);
      if steps == 1 then (written, false)
      else
        var k := Min(steps - 2, DistinctPrefix(names));
        var removed := written.(procs := v.procs - SetOf(names[..k]));
        if k == |names| && steps > 2 + k then
          (removed.(configs := Without(v.configs, SetOf(names))), true)
        else
          (removed, false)
  }

  /** A node that crashes comes back with exactly what its disk configuration lists. */
  function Restarted(v: GroupView): GroupView
  {
    var n := Max(0, v.disk);
    v.(procs := map i: nat | i in Range(0, n) :: ProcState.Stopped, configs := Range(0, n))
  }

  // ----- Facts about contiguous groups -----

  /** The group is exactly processes 0 to n-1. */
  ghost predicate Contiguous(procs: map<nat, ProcState>)
  {
    forall i: nat :: i in procs <==> i < |procs|
  }

  lemma {:induction false} CardinalityBelow(s: set<nat>, n: nat)
    requires forall i: nat :: i in s <==> i < n
    ensures |s| == n
  {
    if n == 0 {
      assert s == {};
    } else {
      CardinalityBelow(s - {n - 1}, n - 1);
    }
  }

  lemma ContiguousBelow(procs: map<nat, ProcState>, n: nat)
    requires forall i: nat :: i in procs <==> i < n
    ensures |procs| == n && Contiguous(procs)
  {
    CardinalityBelow(procs.Keys, n);
    assert |procs.Keys| == |procs|;
  }

  lemma {:induction false} MissingAbove(procs: map<nat, ProcState>, hi: nat)
    requires Contiguous(procs) && |procs| <= hi
    ensures Missing(procs, hi) == Range(|procs|, hi - |procs|)
    decreases hi
  {
    if hi > |procs| {
      MissingAbove(procs, hi - 1);
    } else {
      MissingNone(procs, hi);
    }
  }

  lemma {:induction false} MissingNone(procs: map<nat, ProcState>, hi: int)
    requires Contiguous(procs) && hi <= |procs|
    ensures Missing(procs, hi) == []
    decreases hi
  {
    if hi > 0 {
      MissingNone(procs, hi - 1);
    }
  }

  lemma {:induction false} MissingMembers(procs: map<nat, ProcState>, hi: int)
    ensures forall x :: x in Missing(procs, hi) <==> 0 <= x < hi && x !in procs
    decreases hi
  {
    if hi > 0 {
      MissingMembers(procs, hi - 1);
    }
  }

  lemma {:induction false} MissingPrefix(procs: map<nat, ProcState>, i: nat, hi: int)
    requires i <= hi
    ensures Missing(procs, i) <= Missing(procs, hi)
    decreases hi
  {
    if i < hi {
      MissingPrefix(procs, i, hi - 1);
    }
  }

  lemma DistinctFront(names: seq<nat>)
    requires |names| > 0
    ensures var front, last := names[..|names| - 1], names[|names| - 1];
            Distinct(names) <==> Distinct(front) && last !in front
  {
    var front, last := names[..|names| - 1], names[|names| - 1];
    if Distinct(names) {
      forall j | 0 <= j < |front|
        ensures front[j] != last
      {
        assert names[j] == front[j];
      }
    }
    if Distinct(front) && last !in front {
      forall j, k | 0 <= j < k < |names|
        ensures names[j] != names[k]
      {
        assert names[j] == front[j] && names[j] in front;
        assert k < |front| ==> names[k] == front[k];
      }
    }
  }

  lemma {:induction false} DistinctPrefixWhole(names: seq<nat>)
    ensures DistinctPrefix(names) == |names| <==> Distinct(names)
    ensures Distinct(names[..DistinctPrefix(names)])
    ensures DistinctPrefix(names) < |names| ==> names[DistinctPrefix(names)] in names[..DistinctPrefix(names)]
  {
    if |names| > 0 {
      var front := names[..|names| - 1];
      var k := DistinctPrefix(front);
      DistinctPrefixWhole(front);
      DistinctFront(names);
      assert names[..k] == front[..k] && (k < |front| ==> names[k] == front[k]);
      assert k == |front| ==> front[..k] == front;
      assert names[..|names|] == names;
    }
  }

  lemma TopDominates(v: GroupView, count: nat, top: seq<nat>, k: nat, i: nat)
    requires IsTop(v, count, top) && k < |top|
    requires i in v.procs && i !in top[..k]
    ensures i == top[k] || v.template.Before(i, top[k])
  {
    assert forall j :: 0 <= j < k ==> top[..k][j] == top[j];
  }

  lemma TopDistinct(v: GroupView, count: nat, top: seq<nat>, j: nat, k: nat)
    requires IsTop(v, count, top) && j < k < |top|
    ensures top[j] != top[k]
  {
    LessIrreflexive(v.template.NameOf(top[k]));
    assert v.template.Before(top[k], top[j]);
  }

  /** Highest name first is highest number first: on a contiguous group whose numbers fit the padding,
      the selected processes are n-1, n-2, ... */
  lemma {:induction false} TopOfContiguous(v: GroupView, count: nat, top: seq<nat>, k: nat)
    requires Contiguous(v.procs) && v.template.Fits(|v.procs|)
    requires IsTop(v, count, top) && k < |top|
    ensures top[k] == |v.procs| - 1 - k
    decreases k
  {
    var n, t := |v.procs|, v.template;
    var i: nat := n - 1 - k;
    forall j: nat | j < k
      ensures top[j] == n - 1 - j && top[..k][j] == n - 1 - j
    {
      TopOfContiguous(v, count, top, j);
    }
    assert top[k] in v.procs && top[k] < n;
    if top[k] > i {
      TopDistinct(v, count, top, n - 1 - top[k], k);
    }
    assert i in v.procs && i !in top[..k];
    TopDominates(v, count, top, k, i);
    if top[k] < i {
      FitsInOrder(t, n, top[k], i);
    }
  }

  lemma {:induction false} ReportedAll(procs: map<nat, ProcState>, top: seq<nat>)
    requires forall k :: 0 <= k < |top| ==> top[k] in procs && !procs[top[k]].Stopping?
    ensures Reported(procs, top) == top
  {
    if |top| > 0 {
      var front := top[..|top| - 1];
      assert top == front + [top[|top| - 1]];
      ReportedAll(procs, front);
    }
  }

  /** scaleDown(count) on a contiguous group with nothing STOPPING reports exactly the top
      min(count, n) processes, highest first. */
  lemma ScaleDownTakesTheTop(v: GroupView, count: nat, top: seq<nat>)
    requires Contiguous(v.procs) && v.template.Fits(|v.procs|)
    requires IsTop(v, count, top)
    requires forall i :: i in v.procs ==> !v.procs[i].Stopping?
    ensures Reported(v.procs, top) == Downward(|v.procs|, Min(count, |v.procs|))
  {
    forall k | 0 <= k < |top|
      ensures top[k] == |v.procs| - 1 - k
    {
      TopOfContiguous(v, count, top, k);
    }
    assert top == Downward(|v.procs|, Min(count, |v.procs|));
    ReportedAll(v.procs, top);
  }

  // ----- Failure and retry -----

  lemma {:induction false} SpawnAdds(procs: map<nat, ProcState>, names: seq<nat>)
    ensures var after := Spawn(procs, names);
            && (forall i :: i in after <==> i in procs || i in names)
            && forall i :: i in after ==> after[i] == if i in names then Stopped else procs[i]
  {
    if |names| > 0 {
      var front := names[..|names| - 1];
      assert names == front + [names[|names| - 1]];
      SpawnAdds(procs, front);
    }
  }

  lemma SpawnNext(procs: map<nat, ProcState>, k: nat)
    requires Contiguous(procs)
    ensures var after := Spawn(procs, Range(|procs|, k));
            |after| == |procs| + k && Contiguous(after)
  {
    RangeMembers(|procs|, k);
    SpawnAdds(procs, Range(|procs|, k));
    ContiguousBelow(Spawn(procs, Range(|procs|, k)), |procs| + k);
  }

  lemma {:induction false} RangePrefix(lo: nat, count: nat, k: nat)
    requires k <= count
    ensures Range(lo, count)[..k] == Range(lo, k)
  {
  }

  lemma ScaleUpShape(v: GroupView, count: nat, steps: nat)
    requires v.keyed && steps >= 1
    requires Missing(v.procs, |v.procs| + count) == Range(|v.procs|, count)
    ensures var k := Min(Max(0, steps - 2), count);
            AfterScaleUp(v, count, steps) ==
            (v.(procs := Spawn(v.procs, Range(|v.procs|, k)),
                configs := v.configs + Range(|v.procs|, k), disk := |v.procs| + count),
             if steps >= 2 + count then Some(Range(|v.procs|, count)) else None)
  {
    var k := Min(Max(0, steps - 2), count);
    RangePrefix(|v.procs|, count, k);
    if steps == 1 {
      assert v.configs + [] == v.configs;
    }
  }

  /** scaleUp on a contiguous group adds the next `count` numbers, in order, as far as it gets; once
      its write has happened the disk has the final count. */
  lemma ScaleUpContiguous(v: GroupView, count: nat, steps: nat)
    requires v.keyed && Contiguous(v.procs) && steps >= 1
    ensures var k := Min(Max(0, steps - 2), count);
            && AfterScaleUp(v, count, steps) ==
               (v.(procs := Spawn(v.procs, Range(|v.procs|, k)),
                   configs := v.configs + Range(|v.procs|, k), disk := |v.procs| + count),
                if steps >= 2 + count then Some(Range(|v.procs|, count)) else None)
            && |Spawn(v.procs, Range(|v.procs|, k))| == |v.procs| + k
            && Contiguous(Spawn(v.procs, Range(|v.procs|, k)))
  {
    MissingAbove(v.procs, |v.procs| + count);
    ScaleUpShape(v, count, steps);
    SpawnNext(v.procs, Min(Max(0, steps - 2), count));
  }

  lemma {:induction false} MissingAscends(procs: map<nat, ProcState>, hi: int)
    ensures forall j, k :: 0 <= j < k < |Missing(procs, hi)| ==> Missing(procs, hi)[j] < Missing(procs, hi)[k]
    decreases hi
  {
    if hi > 0 {
      MissingAscends(procs, hi - 1);
      MissingMembers(procs, hi - 1);
      var front, all := Missing(procs, hi - 1), Missing(procs, hi);
      assert forall k :: 0 <= k < |front| ==> all[k] == front[k] && front[k] in front;
    }
  }

  /** The group has grown by these processes, new ones STOPPED, each the lowest number it lacked. */
  ghost predicate GrownBy(v: GroupView, after: GroupView, added: seq<nat>)
  {
    && after.configs == v.configs + added
    && after.procs.Keys == v.procs.Keys + SetOf(added)
    && (forall i :: i in after.procs ==>
          after.procs[i] == if i in v.procs then v.procs[i] else ProcState.Stopped)
    && (forall x :: x in added ==> x !in v.procs && x < after.disk)
    && (forall x, i: nat :: x in added && i < x ==> i in after.procs)
  }

  lemma LowestFirst(procs: map<nat, ProcState>, hi: int, k: nat, x: nat, i: nat)
    requires k <= |Missing(procs, hi)| && x in Missing(procs, hi)[..k] && i < x && i !in procs
    ensures i in Missing(procs, hi)[..k]
  {
    var missing := Missing(procs, hi);
    MissingMembers(procs, hi);
    MissingAscends(procs, hi);
    var b: nat :| b < k && missing[b] == x;
    assert missing[b] in missing;
    var a: nat :| a < |missing| && missing[a] == i;
    assert a < b;
    assert missing[..k][a] == i;
  }

  lemma AllOrOneLeft(procs: map<nat, ProcState>, hi: int, k: nat)
    requires k <= |Missing(procs, hi)|
    ensures k == |Missing(procs, hi)| <==> forall i: nat :: i < hi ==> i in procs || i in Missing(procs, hi)[..k]
  {
    var missing := Missing(procs, hi);
    MissingMembers(procs, hi);
    if k < |missing| {
      MissingAscends(procs, hi);
      var x := missing[k];
      assert x in missing && x !in missing[..k];
    } else {
      assert missing[..k] == missing;
    }
  }

  lemma MissingGrows(v: GroupView, written: GroupView, k: nat)
    requires written == v.(disk := written.disk) && k <= |Missing(v.procs, written.disk)|
    ensures var missing := Missing(v.procs, written.disk);
            var added := missing[..k];
            var after := written.(procs := Spawn(v.procs, added), configs := v.configs + added);
            && GrownBy(v, after, added)
            && (k == |missing| <==> forall i: nat :: i < after.disk ==> i in after.procs)
  {
    var missing := Missing(v.procs, written.disk);
    var added := missing[..k];
    var procs := Spawn(v.procs, added);
    SpawnAdds(v.procs, added);
    AllOrOneLeft(v.procs, written.disk, k);
    assert procs.Keys == v.procs.Keys + SetOf(added);
    forall x | x in added
      ensures x !in v.procs && x < written.disk
    {
      MissingMembers(v.procs, written.disk);
      assert x in missing;
    }
    forall x, i: nat | x in added && i < x
      ensures i in procs
    {
      if i !in v.procs { LowestFirst(v.procs, written.disk, k, x, i); }
    }
  }

  /** scaleUp on any group: after its first effect the disk has the count of the group plus `count`, if the
      program has a line; from the third on it adds, lowest first, the processes the group lacks of those the
      disk lists; it succeeds exactly when it gets through them all, and names them. */
  lemma ScaleUpOutcome(v: GroupView, count: nat, steps: nat)
    ensures var (after, reply) := AfterScaleUp(v, count, steps);
            && after.template == v.template && after.keyed == v.keyed
            && after.disk == (if steps > 0 && v.keyed then |v.procs| + count else v.disk)
            && (steps < 2 ==> after.procs == v.procs && after.configs == v.configs && reply.None?)
            && (steps >= 2 ==>
                  exists added :: GrownBy(v, after, added) && |added| <= steps - 2
                                  && (reply.None? ==> |added| == steps - 2)
                                  && (reply.Some? ==> reply.value == added)
                                  && (reply.Some? <==> forall i: nat :: i < after.disk ==> i in after.procs))
  {
    if steps >= 2 {
      var written := WriteDisk(v, |v.procs| + count);
      var missing := Missing(v.procs, written.disk);
      var k := Min(steps - 2, |missing|);
      MissingGrows(v, written, k);
      assert missing[..|missing|] == missing;
      assert GrownBy(v, AfterScaleUp(v, count, steps).0, missing[..k]);
    }
  }

  lemma RetryEarly(v: GroupView, count: nat, steps: nat, full: nat)
    requires v.keyed && steps <= 2 && full >= 1
    requires AfterScaleUp(v, count, steps).0.procs == v.procs
    ensures AfterScaleUp(AfterScaleUp(v, count, steps).0, count, full) == AfterScaleUp(v, count, full)
  {
    var written := v.(disk := |v.procs| + count);
    assert v.configs + [] == v.configs;
    assert AfterScaleUp(v, count, steps).0 == if steps == 0 then v else written;
  }

  /** A scaleUp that stopped before injecting anything can simply be repeated: the count is taken from
      memory again, so the second call ends where an undisturbed first call would have. Once a process
      has been injected this is no longer so, and a repeat adds that many too many. */
  lemma RetryScaleUp(v: GroupView, count: nat, steps: nat, full: nat)
    requires v.keyed && Contiguous(v.procs) && steps < 2 + count <= full
    ensures AfterScaleUp(AfterScaleUp(v, count, steps).0, count, full) == AfterScaleUp(v, count, full) <==> steps <= 2
  {
    var half := AfterScaleUp(v, count, steps).0;
    if steps <= 2 {
      assert half.procs == v.procs by {
        if steps > 0 { ScaleUpContiguous(v, count, steps); }
      }
      RetryEarly(v, count, steps, full);
    } else {
      assert half.keyed && |half.procs| == |v.procs| + steps - 2 && Contiguous(half.procs) by {
        ScaleUpContiguous(v, count, steps);
      }
      assert AfterScaleUp(half, count, full).0.disk == |half.procs| + count by {
        ScaleUpContiguous(half, count, full);
      }
      assert AfterScaleUp(v, count, full).0.disk == |v.procs| + count by {
        ScaleUpContiguous(v, count, full);
      }
    }
  }

  /** A scaleUp by two that stopped after one and is repeated adds three. */
  lemma RepeatedScaleUpAddsThree(v: GroupView)
    requires v.keyed && Contiguous(v.procs)
    ensures |AfterScaleUp(AfterScaleUp(v, 2, 3).0, 2, 4).0.procs| == |v.procs| + 3
    ensures |AfterScaleUp(v, 2, 4).0.procs| == |v.procs| + 2
  {
    ScaleUpContiguous(v, 2, 3);
    ScaleUpContiguous(v, 2, 4);
    ScaleUpContiguous(AfterScaleUp(v, 2, 3).0, 2, 4);
  }

  /** A confirmScaleDown whose re-read failed can be repeated as well, and one that fails its checks or
      its write has changed nothing. */
  lemma RetryConfirm(v: GroupView, names: seq<nat>, steps: nat, full: nat)
    requires steps <= 2 && full > 0
    ensures AfterConfirm(AfterConfirm(v, names, steps).0, names, full) == AfterConfirm(v, names, full)
    ensures steps == 0 || !Removable(v.procs, names) ==> AfterConfirm(v, names, steps) == (v, false)
  {
    assert v.procs - SetOf(names[..0]) == v.procs;
  }

  /** confirmScaleDown reports success exactly when every named process was there, stopped, and named
      once, and it then removes exactly those. */
  lemma ConfirmOutcome(v: GroupView, names: seq<nat>, steps: nat)
    requires steps >= 3 + |names|
    ensures AfterConfirm(v, names, steps).1 <==> Removable(v.procs, names) && Distinct(names)
    ensures AfterConfirm(v, names, steps).1 ==>
              var after := AfterConfirm(v, names, steps).0;
              && after.procs == v.procs - SetOf(names)
              && |after.procs| == |v.procs| - |names|
              && (v.keyed ==> after.disk == |after.procs|)
              && forall x :: x in after.configs <==> x in v.configs && x !in names
  {
    DistinctPrefixWhole(names);
    WithoutMembers(v.configs, SetOf(names));
    if Removable(v.procs, names) && Distinct(names) {
      assert names[..|names|] == names;
      DistinctCard(names);
      assert SetOf(names) <= v.procs.Keys;
      assert (v.procs - SetOf(names)).Keys == v.procs.Keys - SetOf(names);
    }
  }

  /** Deletions stopped after d names: after that many effects, or at a repeated name. */
  ghost predicate StoppedAfter(names: seq<nat>, limit: int, d: nat)
  {
    d <= |names| && d <= limit && Distinct(names[..d]) && (d == limit || (d < |names| && names[d] in names[..d]))
  }

  /** When it does not, it got through some of its effects in order: the write, then deletions in the order of
      the request; the configuration list is as before. A request that fails the checks changes nothing. */
  lemma ConfirmPartial(v: GroupView, names: seq<nat>, steps: nat)
    requires !AfterConfirm(v, names, steps).1
    ensures var after := AfterConfirm(v, names, steps).0;
            && (steps == 0 || !Removable(v.procs, names) ==> after == v)
            && (steps > 0 && Removable(v.procs, names) ==>
                  && after.template == v.template && after.keyed == v.keyed && after.configs == v.configs
                  && after.disk == (if v.keyed then |v.procs| - |names| else v.disk)
                  && exists d: nat :: StoppedAfter(names, Max(0, steps - 2), d)
                                   && after.procs == v.procs - SetOf(names[..d]))
  {
    DistinctPrefixWhole(names);
    assert v.procs - SetOf(names[..0]) == v.procs;
    if steps > 0 && Removable(v.procs, names) {
      var whole := DistinctPrefix(names);
      var d := if steps == 1 then 0 else Min(steps - 2, whole);
      assert names[..d] == names[..whole][..d];
      assert StoppedAfter(names, Max(0, steps - 2), d);
    }
  }

  lemma {:induction false} DistinctCard(names: seq<nat>)
    requires Distinct(names)
    ensures |SetOf(names)| == |names|
  {
    if |names| > 0 {
      var front := names[..|names| - 1];
      DistinctCard(front);
      assert names == front + [names[|names| - 1]];
      assert SetOf(names) == SetOf(front) + {names[|names| - 1]};
      assert names[|names| - 1] !in front;
    }
  }

  /** scaleUp never touches a process that is already there, wherever it stops. */
  lemma ScaleUpKeepsProcesses(v: GroupView, count: nat, steps: nat)
    ensures var after := AfterScaleUp(v, count, steps).0;
            forall i :: i in v.procs ==> i in after.procs && after.procs[i] == v.procs[i]
  {
    if steps >= 2 {
      var missing := Missing(v.procs, WriteDisk(v, |v.procs| + count).disk);
      MissingMembers(v.procs, WriteDisk(v, |v.procs| + count).disk);
      SpawnAdds(v.procs, missing[..Min(steps - 2, |missing|)]);
    }
  }
}
