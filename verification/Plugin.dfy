/** The RPC plugin that runs inside each Supervisor node. Every method takes `steps`, the number of
    its effects that happen before something raises; a large number is an undisturbed call. */
module Plugin {
  import opened Names
  import opened ConfigEditor
  import opened Group

  datatype FaultCode = ShutdownState | BadName | StillRunning | Failed

  datatype Reply<+T> = Ok(value: T) | Fault(code: FaultCode)

  datatype LiveGroup = LiveGroup(template: Template, procs: map<nat, ProcState>, configs: seq<nat>)

  datatype ProcInfo = ProcInfo(name: nat, state: ProcState)

  // ----- `sorted` by process name -----

  ghost predicate AscendingByName(t: Template, r: seq<nat>)
  {
    forall j, k :: 0 <= j < k < |r| ==> t.Before(r[j], r[k])
  }

  lemma {:induction false} LeastExists(t: Template, s: set<nat>) returns (x: nat)
    requires s != {}
    ensures x in s && forall y :: y in s && y != x ==> t.Before(x, y)
  {
    x :| x in s;
    if s != {x} {
      var z := LeastExists(t, s - {x});
      NameTotal(t.prefix, t.width, t.start + x, t.start + z);
      if t.Before(z, x) {
        x := z;
      } else {
        forall y | y in s && y != x
          ensures t.Before(x, y)
        {
          assert y in s - {x};
          if y != z { LessTransitive(t.NameOf(x), t.NameOf(z), t.NameOf(y)); }
        }
      }
    }
  }

  method FirstByName(t: Template, s: set<nat>) returns (x: nat)
    requires s != {}
    ensures x in s && forall y :: y in s && y != x ==> t.Before(x, y)
  {
    ghost var least := LeastExists(t, s);
    x :| x in s && forall y :: y in s && y != x ==> t.Before(x, y);
  }

  /** The keys of the dictionary of processes, in ascending order of name. */
  method SortedByName(t: Template, keys: set<nat>) returns (r: seq<nat>)
    ensures AscendingByName(t, r) && |r| == |keys| && forall x :: x in r <==> x in keys
  {
    r := [];
    var rest := keys;
    while rest != {}
      invariant AscendingByName(t, r) && |r| + |rest| == |keys|
      invariant forall x :: x in keys <==> x in r || x in rest
      invariant forall k, y :: 0 <= k < |r| && y in rest ==> t.Before(r[k], y)
      decreases |rest|
    {
      var x := FirstByName(t, rest);
      r, rest := r + [x], rest - {x};
    }
  }

  /** Sorting downwards and cutting selects the names IsTop describes. */
  lemma ReversedIsTop(v: GroupView, count: nat, r: seq<nat>, top: seq<nat>)
    requires AscendingByName(v.template, r) && |r| == |v.procs| && forall x :: x in r <==> x in v.procs
    requires |top| == Min(count, |r|) && forall k :: 0 <= k < |top| ==> top[k] == r[|r| - 1 - k]
    ensures IsTop(v, count, top)
  {
    assert forall j :: |r| - |top| <= j < |r| ==> top[|r| - 1 - j] == r[j];
  }

  // ----- The loops over one group's processes -----

  /** The group with these processes injected. */
  function Injected(g: LiveGroup, added: seq<nat>): LiveGroup
  {
    g.(procs := Spawn(g.procs, added), configs := g.configs + added)
  }

  lemma InjectedNext(g: LiveGroup, added: seq<nat>, i: nat)
    ensures var now := Injected(g, added);
            Injected(g, added + [i]) ==
            now.(procs := now.procs[i := ProcState.Stopped], configs := now.configs + [i])
  {
    assert (added + [i])[..|added|] == added;
    assert g.configs + (added + [i]) == g.configs + added + [i];
  }

  lemma MissingNext(procs: map<nat, ProcState>, i: nat)
    ensures Missing(procs, i + 1) == Missing(procs, i) + if i in procs then [] else [i]
  {
  }

  lemma LimitReached(procs: map<nat, ProcState>, i: nat, hi: int, limit: nat)
    requires i < hi && i !in procs && |Missing(procs, i)| == limit
    ensures |Missing(procs, hi)| > limit && Missing(procs, hi)[..limit] == Missing(procs, i)
  {
    MissingNext(procs, i);
    MissingPrefix(procs, i + 1, hi);
  }

  lemma AllMissing(procs: map<nat, ProcState>, i: int, hi: int, limit: nat)
    requires (i == hi || (i == 0 && hi <= 0)) && |Missing(procs, i)| <= limit
    ensures var missing := Missing(procs, hi); missing == Missing(procs, i) == missing[..Min(limit, |missing|)]
  {
    var missing := Missing(procs, hi);
    assert missing[..|missing|] == missing;
  }

  /** Injects each process config the group lacks, over the processes 0 to numprocs-1 the re-read
      expands; it gets through at most `limit` injections. */
  method InjectMissing(g: LiveGroup, numprocs: int, limit: nat)
    returns (after: LiveGroup, added: seq<nat>, complete: bool)
    ensures var missing := Missing(g.procs, numprocs);
            added == missing[..Min(limit, |missing|)] && (complete <==> |missing| <= limit)
    ensures after == g.(procs := Spawn(g.procs, added), configs := g.configs + added)
  {
    after, added := g, [];
    assert g.configs + [] == g.configs;
    var i := 0;
    while i < numprocs
      invariant i == 0 || 0 <= i <= numprocs
      invariant |added| <= limit && added == Missing(g.procs, i) && after == Injected(g, added)
    {
      MissingNext(g.procs, i);
      if i !in g.procs {
        if |added| == limit {
          LimitReached(g.procs, i, numprocs, limit);
          return after, added, false;
        }
        InjectedNext(g, added, i);
        after := after.(procs := after.procs[i := ProcState.Stopped], configs := after.configs + [i]);
        added := added + [i];
      }
      i := i + 1;
    }
    AllMissing(g.procs, i, numprocs, limit);
    return after, added, true;
  }

  /** The part of scaleUp after the re-read. */
  method InjectReread(ghost v: GroupView, g: LiveGroup, ghost count: nat, numprocs: int, steps: nat)
    returns (after: LiveGroup, reply: Option<seq<nat>>)
    requires v.procs == g.procs && v.configs == g.configs && steps >= 2
    requires numprocs == WriteDisk(v, |g.procs| + count).disk
    ensures AfterScaleUp(v, count, steps) ==
            (WriteDisk(v, |g.procs| + count).(procs := after.procs, configs := after.configs), reply)
    ensures after.template == g.template
  {
    var injected, added, complete := InjectMissing(g, numprocs, steps - 2);
    ghost var missing := Missing(g.procs, numprocs);
    assert complete ==> missing[..|missing|] == missing;
    return injected, if complete then Some(added) else None;
  }

  lemma StopsOneMore(procs: map<nat, ProcState>, front: seq<nat>, p: nat, after: map<nat, ProcState>, state: ProcState)
    requires StopsOnly(procs, front, after) && p in procs && p !in front
    requires if IsActive(procs[p]) then StopOutcome(procs[p], state) else state == procs[p]
    ensures StopsOnly(procs, front + [p], after[p := state])
  {
  }

  lemma ReportsOneMore(procs: map<nat, ProcState>, front: seq<nat>, p: nat)
    requires (forall k :: 0 <= k < |front| ==> front[k] in procs) && p in procs
    ensures forall k :: 0 <= k < |front + [p]| ==> (front + [p])[k] in procs
    ensures Reported(procs, front + [p]) == Reported(procs, front) + if procs[p].Stopping? then [] else [p]
  {
    assert (front + [p])[..|front|] == front;
  }

  /** Asks one process to stop if it is running; it is listed unless it is STOPPING already. */
  method AskToStop(state: ProcState) returns (outcome: ProcState, listed: bool)
    ensures if IsActive(state) then StopOutcome(state, outcome) else outcome == state
    ensures listed <==> state != ProcState.Stopping
  {
    if !IsActive(state) {
      return state, IsStopped(state);
    }
    outcome, listed := ProcState.Stopping, true;   // stop() sends the signal
    if state.Backoff? {
      outcome := *;                                // there is nothing to signal: stop() or give_up() settles it
      if !(outcome.Stopped? || outcome.Fatal?) { outcome := ProcState.Stopped; }
    }
    if * {
      outcome := ProcState.Unknown;                // the signal could not be delivered
    }
  }

  /** Asks the selected processes to stop in turn, and lists them. */
  method StopEach(procs: map<nat, ProcState>, top: seq<nat>) returns (after: map<nat, ProcState>, stopping: seq<nat>)
    requires forall k :: 0 <= k < |top| ==> top[k] in procs
    requires Distinct(top)
    ensures StopsOnly(procs, top, after) && stopping == Reported(procs, top)
  {
    after, stopping := procs, [];
    for k := 0 to |top|
      invariant StopsOnly(procs, top[..k], after)
      invariant stopping == Reported(procs, top[..k])
    {
      var p := top[k];
      assert top[..k + 1] == top[..k] + [p] && p !in top[..k];
      var outcome, listed := AskToStop(after[p]);
      ReportsOneMore(procs, top[..k], p);
      StopsOneMore(procs, top[..k], p, after, outcome);
      after := after[p := outcome];
      if listed {
        stopping := stopping + [p];
      }
    }
    assert top[..|top|] == top;
  }

  /** The part of scaleDown that works on one group. */
  method StopHighest(ghost v: GroupView, procs: map<nat, ProcState>, template: Template, count: nat)
    returns (after: map<nat, ProcState>, stopping: seq<nat>)
    requires v.procs == procs && v.template == template
    ensures exists top :: StopsTop(v, count, top, after, stopping)
  {
    var ascending := SortedByName(template, procs.Keys);
    var n := |ascending|;
    var top := seq(Min(count, n), k requires 0 <= k < Min(count, n) => ascending[n - 1 - k]);
    ReversedIsTop(v, count, ascending, top);
    forall j, k | 0 <= j < k < |top|
      ensures top[j] != top[k]
    {
      TopDistinct(v, count, top, j, k);
    }
    after, stopping := StopEach(procs, top);
    assert StopsTop(v, count, top, after, stopping);
  }

  /** The validation loop of confirmScaleDown: the first offending name decides the fault. */
  method CheckRemovable(procs: map<nat, ProcState>, names: seq<nat>) returns (fault: Option<FaultCode>)
    ensures fault.None? <==> Removable(procs, names)
    ensures fault.Some? ==> Refused(procs, names, fault.value)
  {
    for k := 0 to |names|
      invariant Removable(procs, names[..k])
    {
      assert names[..k + 1] == names[..k] + [names[k]];
      if names[k] !in procs {
        assert FirstOffender(procs, names, k, BadName);
        return Some(BadName);
      }
      if !IsStopped(procs[names[k]]) {
        assert FirstOffender(procs, names, k, StillRunning);
        return Some(StillRunning);
      }
    }
    assert names[..|names|] == names;
    return None;
  }

  ghost predicate Refused(procs: map<nat, ProcState>, names: seq<nat>, code: FaultCode)
  {
    exists k :: FirstOffender(procs, names, k, code)
  }

  ghost predicate FirstOffender(procs: map<nat, ProcState>, names: seq<nat>, k: nat, code: FaultCode)
  {
    && k < |names| && Removable(procs, names[..k]) && !Removable(procs, [names[k]])
    && code == if names[k] in procs then StillRunning else BadName
  }

  /** Deletes the named processes in turn, at most `limit` of them. */
  method DeleteEach(procs: map<nat, ProcState>, names: seq<nat>, limit: nat)
    returns (after: map<nat, ProcState>, complete: bool)
    requires Removable(procs, names)
    ensures var k := Min(limit, DistinctPrefix(names));
            after == procs - SetOf(names[..k]) && (complete <==> k == |names|)
  {
    after := procs;
    assert procs - SetOf(names[..0]) == procs;
    var j := 0;
    while j < |names|
      invariant j <= |names| && j <= limit && j <= DistinctPrefix(names)
      invariant after == procs - SetOf(names[..j])
    {
      if j == limit {
        return after, false;
      }
      DistinctPrefixIs(names, j);
      if names[j] !in after {
        return after, false;   // KeyError: the name was listed twice
      }
      assert SetOf(names[..j + 1]) == SetOf(names[..j]) + {names[j]};
      assert procs - SetOf(names[..j + 1]) == after - {names[j]};
      after := after - {names[j]};
      j := j + 1;
    }
    return after, true;
  }

  /** The loop of getGroupInfo. */
  method Describe(ghost v: GroupView, template: Template, procs: map<nat, ProcState>) returns (infos: seq<ProcInfo>)
    requires v.template == template && v.procs == procs
    ensures ReportsGroup(v, infos)
  {
    var names := SortedByName(template, procs.Keys);
    infos := [];
    for k := 0 to |names|
      invariant |infos| == k && forall j :: 0 <= j < k ==>
        names[j] in procs && infos[j] == ProcInfo(names[j], procs[names[j]])
    {
      assert names[k] in names;
      infos := infos + [ProcInfo(names[k], procs[names[k]])];
    }
    assert forall i :: i in procs ==> i in names;
  }

  /** The part of confirmScaleDown after the re-read. */
  method RemoveStopped(ghost v: GroupView, g: LiveGroup, names: seq<nat>, steps: nat)
    returns (after: LiveGroup, complete: bool)
    requires v.procs == g.procs && v.configs == g.configs && Removable(g.procs, names) && steps >= 2
    ensures AfterConfirm(v, names, steps) ==
            (WriteDisk(v, |g.procs| - |names|).(procs := after.procs, configs := after.configs), complete)
    ensures after.template == g.template
  {
    var procs, deleted := DeleteEach(g.procs, names, steps - 2);
    if !deleted || steps == 2 + |names| {
      return g.(procs := procs), false;
    }
    return g.(procs := procs, configs := Without(g.configs, SetOf(names))), true;
  }

  /** The reply and what is left: success exactly as AfterConfirm says; a request that fails the checks is
      refused for its first offending name. */
  ghost predicate ConfirmedAs(v: GroupView, names: seq<nat>, steps: nat, after: GroupView, r: Reply<bool>)
  {
    && after == AfterConfirm(v, names, steps).0
    && (r == Ok(true) <==> AfterConfirm(v, names, steps).1) && (r.Ok? ==> r.value)
    && (!Removable(v.procs, names) ==> r.Fault? && Refused(v.procs, names, r.code))
  }

  /** The files have been edited for one program, and in no other way. */
  ghost predicate Wrote(before: seq<File>, program: string, n: int, after: seq<File>)
  {
    after == Update(before, program, n)
  }

  class SupervisorNode {
    var running: bool                    // mood is at least RUNNING
    var groups: map<string, LiveGroup>   // process_groups
    var files: seq<File>                 // the main configuration and its includes, on disk

    constructor (running: bool, groups: map<string, LiveGroup>, files: seq<File>)
      ensures this.running == running && this.groups == groups && this.files == files
    {
      this.running, this.groups, this.files := running, groups, files;
    }

    /** numprocs as Supervisor's parser would take it from disk; 1 is its default. */
    function Numprocs(program: string): (n: int)
      reads this
      ensures Read(files, program).None? ==> n == 1
      ensures Read(files, program).Some? ==> Some(n) == Read(files, program)
    {
      match Read(files, program)
      case Some(n) => n
      case None => 1
    }

    function View(program: string): GroupView
      requires program in groups
      reads this
    {
      var g := groups[program];
      GroupView(g.template, g.procs, g.configs, Find(files, Header(program), 0).Some?, Numprocs(program))
    }

    /** Everything but one program's group and its line on disk is as before. */
    twostate predicate OthersKept(program: string)
      reads this
    {
      && groups.Keys == old(groups.Keys) && running == old(running)
      && (forall q :: q in groups && q != program ==> groups[q] == old(groups[q]))
      && (forall q :: q != program ==> Read(files, q) == Read(old(files), q))
    }

    method GetGroupInfo(program: string) returns (r: Reply<seq<ProcInfo>>)
      ensures !running ==> r == Fault(ShutdownState)
      ensures running && program !in groups ==> r == Fault(BadName)
      ensures running && program in groups ==> r.Ok? && ReportsGroup(View(program), r.value)
    {
      if !running {
        return Fault(ShutdownState);
      }
      if program !in groups {
        return Fault(BadName);
      }
      var g := groups[program];
      var infos := Describe(View(program), g.template, g.procs);
      return Ok(infos);
    }

    method UpdateNumprocs(program: string, n: int)
      requires program in groups
      modifies this`files
      ensures Wrote(old(files), program, n, files)
      ensures View(program) == WriteDisk(old(View(program)), n)
      ensures OthersKept(program)
    {
      ReadAfterUpdate(files, program, n);
      forall q | q != program
        ensures Read(Update(files, program, n), q) == Read(files, q)
      {
        UpdateKeepsOtherPrograms(files, program, q, n);
      }
      files := UpdateNumprocsInConfig(files, program, n);
    }

    method ScaleUp(program: string, count: nat, steps: nat) returns (r: Reply<seq<nat>>)
      modifies this
      ensures OthersKept(program)
      ensures !running ==> r == Fault(ShutdownState) && groups == old(groups) && files == old(files)
      ensures running && program !in groups ==> r == Fault(BadName) && files == old(files)
      ensures running && program in groups ==>
                && View(program) == AfterScaleUp(old(View(program)), count, steps).0
                && match AfterScaleUp(old(View(program)), count, steps).1
                   case Some(added) => r == Ok(added)
                   case None => r.Fault?
      ensures running && program in groups ==>
                if steps > 0 then Wrote(old(files), program, |old(groups)[program].procs| + count, files)
                else files == old(files)
    {
      if !running {
        return Fault(ShutdownState);
      }
      if program !in groups {
        return Fault(BadName);
      }
      var before := groups[program];
      ghost var v := View(program);
      var newNumprocs := |before.procs| + count;
      if steps == 0 {
        return Fault(Failed);
      }
      UpdateNumprocs(program, newNumprocs);
      if steps == 1 {
        return Fault(Failed);
      }
      var after, reply := InjectReread(v, before, count, Numprocs(program), steps);
      groups := groups[program := after];
      if reply.None? {
        return Fault(Failed);
      }
      return Ok(reply.value);
    }

    method ScaleDown(program: string, count: nat) returns (r: Reply<seq<nat>>)
      modifies this`groups
      ensures OthersKept(program)
      ensures !running ==> r == Fault(ShutdownState) && groups == old(groups)
      ensures running && program !in groups ==> r == Fault(BadName)
      ensures running && program in groups ==>
                && r.Ok?
                && View(program) == old(View(program)).(procs := View(program).procs)
                && exists top :: StopsTop(old(View(program)), count, top, View(program).procs, r.value)
    {
      if !running {
        return Fault(ShutdownState);
      }
      if program !in groups {
        return Fault(BadName);
      }
      var before := groups[program];
      var after, stopping := StopHighest(View(program), before.procs, before.template, count);
      groups := groups[program := before.(procs := after)];
      return Ok(stopping);
    }

    method ConfirmScaleDown(program: string, names: seq<nat>, steps: nat) returns (r: Reply<bool>)
      modifies this
      ensures OthersKept(program)
      ensures !running ==> r == Fault(ShutdownState) && groups == old(groups) && files == old(files)
      ensures running && program !in groups ==> r == Fault(BadName) && files == old(files)
      ensures running && program in groups ==> ConfirmedAs(old(View(program)), names, steps, View(program), r)
      ensures running && program in groups && !Removable(old(View(program)).procs, names) ==> groups == old(groups)
      ensures running && program in groups ==>
                if steps > 0 && Removable(old(View(program)).procs, names) then
                  Wrote(old(files), program, |old(groups)[program].procs| - |names|, files)
                else files == old(files)
    {
      if !running {
        return Fault(ShutdownState);
      }
      if program !in groups {
        return Fault(BadName);
      }
      var before := groups[program];
      ghost var v := View(program);
      var fault := CheckRemovable(before.procs, names);
      if fault.Some? {
        return Fault(fault.value);
      }
      var newNumprocs := |before.procs| - |names|;
      if steps == 0 {
        return Fault(Failed);
      }
      UpdateNumprocs(program, newNumprocs);
      if steps == 1 {
        return Fault(Failed);
      }
      // the re-read changes nothing in the live group
      var after, complete := RemoveStopped(v, before, names, steps);
      groups := groups[program := after];
      if !complete {
        return Fault(Failed);
      }
      return Ok(true);
    }
  }

  /** What scaleDown did: it selected the top `count` names, asked the running ones to stop, and
      reported all but the ones already STOPPING. */
  ghost predicate StopsTop(v: GroupView, count: nat, top: seq<nat>, after: map<nat, ProcState>, reply: seq<nat>)
  {
    IsTop(v, count, top) && StopsOnly(v.procs, top, after) && reply == Reported(v.procs, top)
  }

  /** None of the selected processes is left running, nothing changes that was not selected, and the reply has the
      selected ones but those that were STOPPING. */
  lemma StopsAreSent(procs: map<nat, ProcState>, top: seq<nat>, after: map<nat, ProcState>, i: nat)
    requires StopsOnly(procs, top, after) && i in procs
    requires forall k :: 0 <= k < |top| ==> top[k] in procs
    ensures i in after && (i in top ==> !IsActive(after[i]))
    ensures i !in top || !IsActive(procs[i]) ==> after[i] == procs[i]
    ensures i in Reported(procs, top) <==> i in top && procs[i] != ProcState.Stopping
  {
    ReportedMembers(procs, top);
  }

  lemma {:induction false} DistinctPrefixIs(names: seq<nat>, j: nat)
    requires j < |names| && j <= DistinctPrefix(names)
    ensures names[j] in names[..j] <==> j == DistinctPrefix(names)
  {
    DistinctPrefixWhole(names);
    var d := DistinctPrefix(names);
    if j < d {
      assert forall i :: 0 <= i < j ==> names[..d][i] != names[..d][j];
    }
  }

  /** getGroupInfo reports every process of the group once, in name order, with its state. */
  ghost predicate ReportsGroup(v: GroupView, infos: seq<ProcInfo>)
  {
    && |infos| == |v.procs|
    && (forall j :: 0 <= j < |infos| ==> infos[j].name in v.procs && infos[j].state == v.procs[infos[j].name])
    && (forall j, k :: 0 <= j < k < |infos| ==> v.template.Before(infos[j].name, infos[k].name))
    && (forall i :: i in v.procs ==> exists j :: 0 <= j < |infos| && infos[j].name == i)
  }
}
