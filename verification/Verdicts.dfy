/** What one tick may do for one target, as a relation between the target's state before and after. */
module Verdicts {
  import opened Names
  import opened Plugin
  import opened Protocol
  import opened Tallies
  import opened Cluster
  import opened Targets
  import opened Backends
  import opened Desired
  import opened Balancer
  import opened Timers
  import opened Confirmation
  import opened Distribution
  import opened Pm2Path

  datatype TargetState = TargetState(clock: Clock, pending: Pending)

  type States = map<string, TargetState>

  /** What a tick did: the target was not due; phase 1 ran and then the queue, or with a queue length all
      nodes, were unavailable; the loads were weighed against the queue and spread; the queue, or with a queue
      length PM2, was unavailable; a PM2 command was decided on. */
  datatype Report =
    | Waiting
    | Skipped(kept: Pending, logs: Logs, polled: Option<nat>)
    | Weighed(kept: Pending, logs: Logs, queueLen: nat,
              replies: Replies, loads: seq<Slot>, slots: seq<Slot>, calls: nat)
    | Pm2Skipped(polled: Option<nat>)
    | Commanded(queueLen: nat, active: nat, command: Command, done: bool)

  // ----- What a tick goes by -----

  /** What the target's backend says, if there is one. */
  function Polled(backends: set<string>, queues: Queues, t: Target): Option<nat>
  {
    if t.queue in backends then Length(queues, t.queue, t.queueKey) else None
  }

  /** The tick went by what its backend said. */
  ghost predicate WentBy(backends: set<string>, queues: Queues, t: Target, r: Report)
  {
    match r
    case Waiting => true
    case Skipped(_, _, polled) => polled == Polled(backends, queues, t)
    case Weighed(_, _, queueLen, _, _, _, _) => Polled(backends, queues, t) == Some(queueLen)
    case Pm2Skipped(polled) => polled == Polled(backends, queues, t)
    case Commanded(queueLen, _, _, _) => Polled(backends, queues, t) == Some(queueLen)
  }

  // ----- What a tick decides -----

  /** The desired number of workers. */
  function Wanted(t: Target, queueLen: nat): int
    requires t.Valid()
  {
    Workers(t.minWorkers, t.maxWorkers, t.tasksPerWorker, queueLen)
  }

  function Total(loads: seq<Slot>): int { Sum(Bases(loads)) }

  predicate UpAllowed(t: Target, c: Clock, now: real) { now - c.lastUp >= t.cooldownUp as real }

  predicate DownAllowed(t: Target, c: Clock, now: real) { now - c.lastDown >= t.cooldownDown as real }

  /** How many workers the tick sets out to add, or to remove. */
  function ToAdd(t: Target, c: Clock, now: real, wanted: int, total: int): nat
  {
    if wanted > total && UpAllowed(t, c, now) then Max(0, Min(t.scaleUpStep, t.maxWorkers - total)) else 0
  }

  function ToRemove(t: Target, c: Clock, now: real, wanted: int, total: int): nat
  {
    if wanted < total && DownAllowed(t, c, now) then Max(0, Min(t.scaleDownStep, total - t.minWorkers)) else 0
  }

  function MarkUp(c: Clock, now: real, slots: seq<Slot>): Clock { if Given(slots) > 0 then c.(lastUp := now) else c }

  function MarkDown(c: Clock, now: real,
                    slots: seq<Slot>): Clock { if Given(slots) > 0 then c.(lastDown := now) else c }

  /** Phases 4 to 6. `kept` is what phase 1 left pending; those nodes take no part. */
  ghost predicate Spread(t: Target, c: Clock, kept: Pending, now: real, r: Report, s': TargetState)
    requires t.Valid() && r.Weighed?
  {
    var free := Eligible(r.loads, kept.Keys);
    var wanted, total := Wanted(t, r.queueLen), Total(r.loads);
    var add, remove := ToAdd(t, c, now, wanted, total), ToRemove(t, c, now, wanted, total);
    if add > 0 && free != [] then
      Grown(free, add, r.slots, r.calls) && s' == TargetState(MarkUp(c, now, r.slots), kept)
    else if remove > 0 && free != [] then
      Shrunk(free, remove, r.slots, r.calls) && Marked(kept, s'.pending, r.slots)
          && s'.clock == MarkDown(c, now, r.slots)
    else
      r.slots == [] && r.calls == 0 && s' == TargetState(c, kept)
  }

  /** Whether the tick had workers to add; otherwise its calls, if any, were stop calls. */
  predicate Adds(t: Target, c: Clock, now: real, r: Report)
    requires t.Valid() && r.Weighed?
  {
    ToAdd(t, c, now, Wanted(t, r.queueLen), Total(r.loads)) > 0
  }

  ghost predicate SameCounts(t: Tally, t': Tally)
  {
    t'.ups == t.ups && t'.upsSeen == t.upsSeen && t'.downs == t.downs && t'.downsSeen == t.downsSeen
  }

  /** Moved, whatever was removed before. */
  ghost predicate Scaled(adds: bool, t: Tally, t': Tally, s: Slot) { Moved(adds, t.(gone := t'.gone), t', s) }

  /** What one node went through in a tick is what the report says: a confirmation was acknowledged exactly
      if it is logged so, the scaling calls are those of the node's slot, and there is no slot for it otherwise. */
  ghost predicate NodeAccount(adds: bool, logs: Logs, slots: seq<Slot>, node: string, t: Tally, t': Tally)
  {
    && t'.gone == t.gone + (if node in logs && logs[node].confirmed then multiset(logs[node].asked) else multiset{})
    && (forall i :: 0 <= i < |slots| && slots[i].name == node ==> Scaled(adds, t, t', slots[i]))
    && (node !in NodeNames(slots) ==> SameCounts(t, t'))
  }

  ghost predicate Accounted(t: Target, c: Clock, now: real, r: Report, before: Ledger, after: Ledger)
    requires t.Valid()
  {
    forall n :: OneAccounted(t, c, now, r, n, TallyIn(before, (n, t.name)), TallyIn(after, (n, t.name)))
  }

  ghost predicate OneAccounted(t: Target, c: Clock, now: real, r: Report, node: string, before: Tally, after: Tally)
    requires t.Valid()
  {
    match r
    case Weighed(_, logs, _, _, _, slots, _) => NodeAccount(Adds(t, c, now, r), logs, slots, node, before, after)
    case Skipped(_, logs, _) => NodeAccount(false, logs, [], node, before, after)
    case _ => after == before
  }

  /** No other target's groups were called. */
  ghost predicate OthersUncalled(before: Ledger, after: Ledger, target: string)
  {
    forall k: Key :: k.1 != target ==> TallyIn(after, k) == TallyIn(before, k)
  }

  lemma VouchedUncalled(before: Ledger, after: Ledger, target: string, logs: Logs)
    requires Vouched(before, after, target, logs)
    ensures OthersUncalled(before, after, target)
  {
  }

  lemma SkippedAccounted(t: Target, c: Clock, now: real, r: Report, before: Ledger, after: Ledger)
    requires t.Valid() && r.Skipped? && Vouched(before, after, t.name, r.logs)
    ensures Accounted(t, c, now, r, before, after)
  {
    forall n
      ensures OneAccounted(t, c, now, r, n, TallyIn(before, (n, t.name)), TallyIn(after, (n, t.name)))
    {
      assert TallyIn(after, (n, t.name)) == TallyIn(after, (n, t.name));
    }
  }

  lemma WeighedAccounted(t: Target, c: Clock, now: real, r: Report, before: Ledger, mid: Ledger, after: Ledger)
    requires t.Valid() && r.Weighed? && Vouched(before, mid, t.name, r.logs)
    requires AllMoved(Adds(t, c, now, r), mid, after, t.name, r.slots)
    ensures Accounted(t, c, now, r, before, after) && OthersUncalled(before, after, t.name)
  {
    forall n
      ensures OneAccounted(t, c, now, r, n, TallyIn(before, (n, t.name)), TallyIn(after, (n, t.name)))
    {
      WeighedNode(Adds(t, c, now, r), r.logs, r.slots, t.name, n, before, mid, after);
    }
  }

  lemma WeighedNode(adds: bool, logs: Logs, slots: seq<Slot>, target: string, n: string,
                    before: Ledger, mid: Ledger, after: Ledger)
    requires Vouched(before, mid, target, logs) && AllMoved(adds, mid, after, target, slots)
    ensures NodeAccount(adds, logs, slots, n, TallyIn(before, (n, target)), TallyIn(after, (n, target)))
  {
    var t0, t1, t2 := TallyIn(before, (n, target)), TallyIn(mid, (n, target)), TallyIn(after, (n, target));
    forall i | 0 <= i < |slots| && slots[i].name == n
      ensures Moved(adds, t1, t2, slots[i])
    {
      assert Moved(adds, TallyIn(mid, (slots[i].name, target)), TallyIn(after, (slots[i].name, target)), slots[i]);
    }
    NodeBoth(adds, logs, slots, n, t0, t1, t2);
  }

  lemma NodeBoth(adds: bool, logs: Logs, slots: seq<Slot>, n: string, t0: Tally, t1: Tally, t2: Tally)
    requires t1 == if n in logs && logs[n].confirmed then Gone(t0, logs[n].asked, true) else t0
    requires forall i :: 0 <= i < |slots| && slots[i].name == n ==> Moved(adds, t1, t2, slots[i])
    requires n !in NodeNames(slots) ==> t2 == t1
    ensures NodeAccount(adds, logs, slots, n, t0, t2)
  {
    if n in NodeNames(slots) {
      var i :| 0 <= i < |slots| && slots[i].name == n;
      assert Moved(adds, t1, t2, slots[i]);
    }
  }

  /** The calls the daemon placed for this target are those of the report: the getGroupInfo calls and
      confirmations of phase 1, those of the gathering, and the scaling calls of the slots. A tick that was
      skipped has asked every listed node in vain, or, without a queue length, none. */
  ghost predicate CallsMatch(t: Target, clients: set<string>, s: TargetState, now: real, r: Report,
                             before: multiset<Call>, after: multiset<Call>)
    requires t.Valid()
  {
    match r
    case Weighed(_, logs, _, replies, _, slots, _) =>
      RemovalsMatch(t.name, clients, s.pending, logs, before, after)
      && AsksMatch(t.name, clients, s.pending, logs, t.nodes, replies, before, after)
      && ScalingMatches(if Adds(t, s.clock, now, r) then Raising else Lowering, t.name, slots, before, after)
    case Skipped(_, logs, polled) =>
      RemovalsMatch(t.name, clients, s.pending, logs, before, after)
      && AsksMatch(t.name, clients, s.pending, logs, if polled.Some? then t.nodes else [], map[], before, after)
      && ScalingMatches(Raising, t.name, [], before, after)
    case _ => SameCalls(t.name, before, after)
  }

  /** Not counting phase 1, every listed node was asked as module Distribution says. */
  ghost predicate AsksMatch(target: string, clients: set<string>, pending: Pending, logs: Logs, nodes: seq<string>,
                            replies: Replies, before: multiset<Call>, after: multiset<Call>)
  {
    forall n {:trigger AskMatches(target, clients, pending, logs, nodes, replies, n, before, after)} ::
      AskMatches(target, clients, pending, logs, nodes, replies, n, before, after)
  }

  ghost predicate AskMatches(target: string, clients: set<string>, pending: Pending, logs: Logs, nodes: seq<string>,
                             replies: Replies, node: string, before: multiset<Call>, after: multiset<Call>)
  {
    AskedNode(nodes, clients, replies, node,
              AskedLater(target, clients, pending, logs, Call((node, target), Asking, true), before, after),
              AskedLater(target, clients, pending, logs, Call((node, target), Asking, false), before, after))
  }

  ghost function AskedLater(target: string, clients: set<string>, pending: Pending, logs: Logs, c: Call,
                            before: multiset<Call>, after: multiset<Call>): int
  {
    after[c] as int - before[c] as int - PhaseOneCount(pending, clients, logs, target, c) as int
  }

  ghost predicate RemovalsMatch(target: string, clients: set<string>, pending: Pending, logs: Logs,
                                before: multiset<Call>, after: multiset<Call>)
  {
    forall c: Call :: c.key.1 == target && c.op == Removing ==>
      after[c] == before[c] + PhaseOneCount(pending, clients, logs, target, c)
  }

  ghost predicate ScalingMatches(op: Op, target: string, slots: seq<Slot>, before: multiset<Call>,
                                 after: multiset<Call>)
  {
    && (forall i :: 0 <= i < |slots| ==> SlotPlaced(op, target, slots[i], before, after))
    && (forall c: Call | c.key.1 == target && (c.op == Raising || c.op == Lowering) ::
          c.op != op || c.key.0 !in NodeNames(slots) ==> after[c] == before[c])
  }

  /** For this target nothing was called. */
  ghost predicate SameCalls(target: string, before: multiset<Call>, after: multiset<Call>)
  {
    forall c: Call :: c.key.1 == target ==> after[c] == before[c]
  }

  ghost predicate OthersNotCalled(target: string, before: multiset<Call>, after: multiset<Call>)
  {
    forall c: Call :: c.key.1 != target ==> after[c] == before[c]
  }

  lemma GatheredAsks(pending: Pending, clients: set<string>, logs: Logs, target: string, nodes: seq<string>,
                     replies: Replies, before: multiset<Call>, mid: multiset<Call>, after: multiset<Call>)
    requires PhaseOneCalls(pending, clients, logs, target, before, mid)
    requires GatherCalls(nodes, clients, target, replies, mid, after)
    ensures AsksMatch(target, clients, pending, logs, nodes, replies, before, after)
  {
    forall n
      ensures AskMatches(target, clients, pending, logs, nodes, replies, n, before, after)
    {
      assert Asked(nodes, clients, target, replies, n, mid, after);
      PhaseOneAsks(pending, clients, logs, target, Call((n, target), Asking, true), before, mid);
      PhaseOneAsks(pending, clients, logs, target, Call((n, target), Asking, false), before, mid);
    }
  }

  lemma PhaseOneAsks(pending: Pending, clients: set<string>, logs: Logs, target: string, c: Call,
                     before: multiset<Call>, mid: multiset<Call>)
    requires PhaseOneCalls(pending, clients, logs, target, before, mid)
    ensures mid[c] == before[c] + PhaseOneCount(pending, clients, logs, target, c)
  {
  }

  lemma StillAsked(pending: Pending, clients: set<string>, logs: Logs, target: string, nodes: seq<string>,
                   replies: Replies, c0: multiset<Call>, before: multiset<Call>, mid: multiset<Call>,
                   after: multiset<Call>)
    requires AsksMatch(target, clients, pending, logs, nodes, replies, before, mid)
    requires forall c: Call :: c.key.1 == target && c.op == Asking ==> c0[c] == before[c] && after[c] == mid[c]
    ensures AsksMatch(target, clients, pending, logs, nodes, replies, c0, after)
  {
    forall n
      ensures AskMatches(target, clients, pending, logs, nodes, replies, n, c0, after)
    {
      assert AskMatches(target, clients, pending, logs, nodes, replies, n, before, mid);
    }
  }

  lemma SkippedCalls(t: Target, clients: set<string>, s: TargetState, now: real, r: Report, nodes: seq<string>,
                     before: multiset<Call>, mid: multiset<Call>, after: multiset<Call>)
    requires t.Valid() && r.Skipped? && PhaseOneCalls(s.pending, clients, r.logs, t.name, before, mid)
    requires GatherCalls(nodes, clients, t.name, map[], mid, after)
    requires nodes == if r.polled.Some? then t.nodes else []
    ensures CallsMatch(t, clients, s, now, r, before, after) && OthersNotCalled(t.name, before, after)
  {
    PhaseOneRemovals(s.pending, clients, r.logs, t.name, before, mid);
    GatheredAsks(s.pending, clients, r.logs, t.name, nodes, map[], before, mid, after);
  }

  lemma PhaseOneRemovals(pending: Pending, clients: set<string>, logs: Logs, target: string, before: multiset<Call>,
                         after: multiset<Call>)
    requires PhaseOneCalls(pending, clients, logs, target, before, after)
    ensures RemovalsMatch(target, clients, pending, logs, before, after) && OthersNotCalled(target, before, after)
    ensures forall c: Call :: c.op == Raising || c.op == Lowering ==> after[c] == before[c]
  {
    forall c: Call
      ensures after[c] == before[c] + PhaseOneCount(pending, clients, logs, target, c)
    {
    }
  }

  lemma WeighedCalls(t: Target, clients: set<string>, s: TargetState, now: real, r: Report, before: multiset<Call>,
                     mid: multiset<Call>, gathered: multiset<Call>, after: multiset<Call>)
    requires t.Valid() && r.Weighed? && PhaseOneCalls(s.pending, clients, r.logs, t.name, before, mid)
    requires GatherCalls(t.nodes, clients, t.name, r.replies, mid, gathered)
    requires Placed(if Adds(t, s.clock, now, r) then Raising else Lowering, t.name, r.slots, gathered, after)
    ensures CallsMatch(t, clients, s, now, r, before, after) && OthersNotCalled(t.name, before, after)
  {
    PhaseOneRemovals(s.pending, clients, r.logs, t.name, before, mid);
    GatheredAsks(s.pending, clients, r.logs, t.name, t.nodes, r.replies, before, mid, gathered);
    StillAsked(s.pending, clients, r.logs, t.name, t.nodes, r.replies, before, before, gathered, after);
    var op := if Adds(t, s.clock, now, r) then Raising else Lowering;
    forall i | 0 <= i < |r.slots|
      ensures SlotPlaced(op, t.name, r.slots[i], before, after)
    {
      assert SlotPlaced(op, t.name, r.slots[i], gathered, after);
    }
  }

  /** What the report says nodes replied was true of their groups during the tick. */
  ghost predicate Observed(start: Cells, from: Runs, to: Runs, target: string, r: Report)
  {
    match r
    case Skipped(_, logs, _) => AllSeen(start, from, to, target, logs)
    case Weighed(_, logs, _, replies, _, _, _) =>
      AllSeen(start, from, to, target, logs) && AllReported(start, from, to, target, replies)
    case _ => true
  }

  lemma ObservedLonger(start: Cells, a: Runs, b: Runs, c: Runs,
                       d: Runs, target: string, r: Report)
    requires Observed(start, b, c, target, r) && Later(a, b) && Later(c, d)
    ensures Observed(start, a, d, target, r)
  {
    match r
    case Skipped(_, logs, _) => AllSeenLonger(start, a, b, c, d, target, logs);
    case Weighed(_, logs, _, replies, _, _, _) =>
      AllSeenLonger(start, a, b, c, d, target, logs);
      AllReportedLonger(start, a, b, c, d, target, replies);
    case _ =>
  }

  /** At moment k of the run, not before `from`, the group had n active processes. */
  ghost predicate ActiveAt(c: Cell, from: nat, run: seq<Step>, k: nat, n: nat)
  {
    from <= k <= |run| && |ActiveProcesses(At(c, run, k).view)| == n
  }

  lemma CountSeen(c: Cell, from: nat, run: seq<Step>, k: nat, infos: seq<ProcInfo>)
    requires SeenAt(c, from, run, k, infos)
    ensures ActiveAt(c, from, run, k, CountActive(infos))
  {
    CountActiveCountsGroup(At(c, run, k).view, infos);
  }

  lemma CountSeenSometime(start: Cells, from: Runs, to: Runs, key: Key, infos: seq<ProcInfo>)
    requires Seen(start, from, to, key, infos)
    ensures exists k :: ActiveAt(start[key], |from[key]|, to[key], k, CountActive(infos))
  {
    var k :| SeenAt(start[key], |from[key]|, to[key], k, infos);
    CountSeen(start[key], |from[key]|, to[key], k, infos);
  }

  lemma LoadWasActive(start: Cells, from: Runs, to: Runs, target: string, r: Report, i: nat)
    requires r.Weighed? && Observed(start, from, to, target, r) && Matches(r.replies, r.loads) && i < |r.loads|
    ensures var key := (r.loads[i].name, target);
            && key in start && key in from && key in to
            && exists k :: ActiveAt(start[key], |from[key]|, to[key], k, r.loads[i].base)
  {
    var n := r.loads[i].name;
    assert r.loads[i] in r.loads && n in NodeNames(r.loads);
    assert r.loads[i].base == Load(r.replies, n) == CountActive(r.replies[n]);
    CountSeenSometime(start, from, to, (n, target), r.replies[n]);
  }

  /** A supervisor target that is due. */
  ghost predicate Supervised(t: Target, clients: set<string>, s: TargetState, now: real, r: Report, s': TargetState)
    requires t.Valid()
  {
    match r
    case Skipped(kept, logs, _) => Confirmed(s.pending, kept, clients, logs) && s' == TargetState(s.clock, kept)
    case Weighed(kept, logs, _, replies, loads, _, _) =>
      && Confirmed(s.pending, kept, clients, logs)
      && loads != [] && Gathered(t.nodes, clients, replies, loads)
      && Spread(t, s.clock, kept, now, r, s')
    case _ => false
  }

  /** A PM2 target that is due. */
  ghost predicate Piloted(t: Target, s: TargetState, now: real, r: Report, s': TargetState)
    requires t.Valid()
  {
    match r
    case Pm2Skipped(_) => s' == s
    case Commanded(queueLen, active, command, done) =>
      && command == Decide(t, Wanted(t, queueLen), active, UpAllowed(t, s.clock, now), DownAllowed(t, s.clock, now))
      && s' == s.(clock := if !done then s.clock else match command
                           case Nothing => s.clock
                           case ScaleBy(_) => s.clock.(lastUp := now)
                           case ScaleTo(_) => s.clock.(lastDown := now))
    case _ => false
  }

  /** What became of the application: the active count the decision was based on was its count, and a command
      that succeeded was obeyed; one that failed may have been. */
  ghost predicate Steered(r: Report, a: App, b: App)
  {
    match r
    case Commanded(_, active, command, done) =>
      active == a.online && (Obeyed(command, a, b) || (!done && b == a))
    case _ => b == a
  }

  /** What PM2 is asked in the course of a tick. */
  function PilotCalls(program: string, r: Report): seq<Pm2Call>
  {
    match r
    case Pm2Skipped(Some(_)) => [Listed(program, false)]
    case Commanded(_, _, command, done) =>
      [Listed(program, true)] + if command.Nothing? then [] else [Told(program, command, done)]
    case _ => []
  }

  /** So for the target's application; all others are as before. */
  ghost predicate Followed(r: Report, program: string, apps: Apps, apps': Apps)
  {
    forall p {:trigger AppIn(apps', p)} ::
      if p == program then Steered(r, AppIn(apps, p), AppIn(apps', p)) else AppIn(apps', p) == AppIn(apps, p)
  }

  /** A tick whose command succeeded moves an application with every instance online as module Pm2Path says. */
  lemma FollowedMovesNext(t: Target, s: TargetState, now: real, r: Report, s': TargetState, apps: Apps, apps': Apps)
    requires t.Valid() && Piloted(t, s, now, r, s') && r.Commanded? && (r.done || r.command.Nothing?)
    requires Followed(r, t.program, apps, apps') && AppIn(apps, t.program).offline == 0
    ensures var a := AppIn(apps, t.program);
            var up, down := UpAllowed(t, s.clock, now), DownAllowed(t, s.clock, now);
            AppIn(apps', t.program) == App(Next(t, Wanted(t, r.queueLen), a.online, up, down), 0)
  {
    AllOnlineExecutes(r.command, AppIn(apps, t.program), AppIn(apps', t.program));
  }

  ghost predicate Processed(t: Target, clients: set<string>, s: TargetState, now: real, r: Report, s': TargetState)
    requires t.Valid()
  {
    if t.kind.Pm2? then Piloted(t, s, now, r, s') else Supervised(t, clients, s, now, r, s')
  }

  ghost predicate Ticked(t: Target, clients: set<string>, s: TargetState, now: real, r: Report, s': TargetState)
    requires t.Valid()
  {
    if now - s.clock.lastTick < t.pollInterval as real then r.Waiting? && s' == s
    else Processed(t, clients, s.(clock := s.clock.(lastTick := now)), now, r, s')
  }

  // ----- What that means -----

  /** The workers the tick saw added, and the stop calls it saw acknowledged. */
  function OutcomeOf(t: Target, c: Clock, now: real, r: Report): Outcome
    requires t.Valid()
  {
    match r
    case Waiting => NotDue
    case Skipped(_, _, _) => Ran(0, 0)
    case Weighed(_, _, queueLen, _, loads, slots, _) =>
      if ToAdd(t, c, now, Wanted(t, queueLen), Total(loads)) > 0 then Ran(Given(slots), 0) else Ran(0, Given(slots))
    case Pm2Skipped(_) => Ran(0, 0)
    case Commanded(_, active, command, done) =>
      if !done then Ran(0, 0) else match command
      case Nothing => Ran(0, 0)
      case ScaleBy(k) => Ran(k, 0)
      case ScaleTo(n) => Ran(0, Max(0, active - n))
  }

  lemma SpreadClock(t: Target, s: TargetState, c: Clock, now: real, r: Report, s': TargetState, kept: Pending)
    requires t.Valid() && r.Weighed? && now - s.clock.lastTick >= t.pollInterval as real
    requires c == s.clock.(lastTick := now) && Spread(t, c, kept, now, r, s')
    ensures ClockStep(t, s.clock, now, OutcomeOf(t, s.clock, now, r), s'.clock)
  {
  }

  /** Every tick is a clock step: poll interval and cooldowns are respected, and the timers move exactly
      when something was acknowledged. */
  lemma TickedIsClockStep(t: Target, clients: set<string>, s: TargetState, now: real, r: Report, s': TargetState)
    requires t.Valid() && Ticked(t, clients, s, now, r, s')
    ensures ClockStep(t, s.clock, now, OutcomeOf(t, s.clock, now, r), s'.clock)
  {
    if now - s.clock.lastTick >= t.pollInterval as real {
      if r.Weighed? {
        SpreadClock(t, s, s.clock.(lastTick := now), now, r, s', r.kept);
      }
    }
  }

  ghost predicate Sheds(t: Target, c: Clock, now: real, r: Report)
    requires t.Valid() && r.Weighed?
  {
    ToRemove(t, c, now, Wanted(t, r.queueLen), Total(r.loads)) > 0
  }

  /** The count is within the limits, covers the queue unless max_workers forbids it, and is the least that
      does unless min_workers forbids that. */
  predicate IsWanted(t: Target, queueLen: nat, d: int)
  {
    && t.minWorkers <= d <= t.maxWorkers
    && (d == t.maxWorkers || d * t.tasksPerWorker >= queueLen)
    && (d == t.minWorkers || (d - 1) * t.tasksPerWorker < queueLen)
  }

  /** The desired count is the one count that is so. */
  lemma WantedExactly(t: Target, queueLen: nat, d: int)
    requires t.Valid()
    ensures IsWanted(t, queueLen, d) <==> d == Wanted(t, queueLen)
  {
    var w := Wanted(t, queueLen);
    WorkersMeaning(t.minWorkers, t.maxWorkers, t.tasksPerWorker, queueLen, t.minWorkers);
    if IsWanted(t, queueLen, d) {
      if d < w { Monotone(d, w - 1, t.tasksPerWorker); }
      if w < d { Monotone(w, d - 1, t.tasksPerWorker); }
    }
  }

  /** When it is more, or less, than a given count. */
  lemma WantedBeyond(t: Target, queueLen: nat, n: int)
    requires t.Valid()
    ensures Wanted(t, queueLen) > n <==>
              n < t.maxWorkers && (n < t.minWorkers || n * t.tasksPerWorker < queueLen)
    ensures Wanted(t, queueLen) < n <==>
              n > t.minWorkers && (n > t.maxWorkers || (n - 1) * t.tasksPerWorker >= queueLen)
  {
    var w := Wanted(t, queueLen);
    WantedExactly(t, queueLen, w);
    if n < w { Monotone(n, w - 1, t.tasksPerWorker); } else { Monotone(w, n, t.tasksPerWorker); }
    if w < n { Monotone(w, n - 1, t.tasksPerWorker); } else { Monotone(n - 1, w - 1, t.tasksPerWorker); }
  }

  /** A tick adds exactly when the reachable nodes have too few workers, for min_workers or for the queue, more
      are allowed, and the cooldown is over; it removes exactly when they have too many, for max_workers or
      because one fewer would do for the queue, fewer are allowed, and the other cooldown is over. */
  lemma ActsExactly(t: Target, c: Clock, now: real, r: Report)
    requires t.Valid() && r.Weighed?
    ensures var total := Total(r.loads);
            && (Adds(t, c, now, r) <==>
                now - c.lastUp >= t.cooldownUp as real && total < t.maxWorkers
                && (total < t.minWorkers || total * t.tasksPerWorker < r.queueLen))
            && (Sheds(t, c, now, r) <==>
                now - c.lastDown >= t.cooldownDown as real && total > t.minWorkers
                && (total > t.maxWorkers || (total - 1) * t.tasksPerWorker >= r.queueLen))
  {
    WorkersMeaning(t.minWorkers, t.maxWorkers, t.tasksPerWorker, r.queueLen, t.minWorkers);
    WantedBeyond(t, r.queueLen, Total(r.loads));
  }

  lemma SpreadBounds(t: Target, c: Clock, kept: Pending, now: real, r: Report, s': TargetState)
    requires t.Valid() && r.Weighed? && Spread(t, c, kept, now, r, s')
    ensures Adds(t, c, now, r) ==>
              Total(r.loads) + Given(r.slots) <= t.maxWorkers
                  && Total(r.loads) + r.calls <= t.maxWorkers + Dead(r.slots)
    ensures Sheds(t, c, now, r) ==>
              Total(r.loads) - Given(r.slots) >= t.minWorkers
                  && Total(r.loads) - r.calls >= t.minWorkers - Dead(r.slots)
    ensures !Adds(t, c, now, r) && !Sheds(t, c, now, r) ==> r.calls == 0
    ensures Adds(t, c, now, r) ==> r.calls <= t.scaleUpStep + |Eligible(r.loads, kept.Keys)|
    ensures Sheds(t, c, now, r) ==> r.calls <= t.scaleDownStep + |Eligible(r.loads, kept.Keys)|
  {
  }

  /** How many scaleUp calls, or scaleDown calls, the nodes of these slots executed. */
  ghost function Executed(ups: bool, target: string, slots: seq<Slot>, before: Ledger, after: Ledger): int
  {
    if |slots| == 0 then 0
    else
      var k := (slots[|slots| - 1].name, target);
      Executed(ups, target, slots[..|slots| - 1], before, after) +
      if ups then TallyIn(after, k).ups - TallyIn(before, k).ups else TallyIn(after, k).downs - TallyIn(before, k).downs
  }

  lemma {:induction false} ExecutedBounds(adds: bool, target: string, slots: seq<Slot>, before: Ledger, after: Ledger)
    requires forall i :: 0 <= i < |slots| ==>
               Scaled(adds, TallyIn(before, (slots[i].name, target)), TallyIn(after, (slots[i].name, target)), slots[i])
    ensures Given(slots) <= Executed(adds, target, slots, before, after) <= Calls(slots)
    ensures Executed(!adds, target, slots, before, after) == 0
  {
    if |slots| > 0 {
      var front := slots[..|slots| - 1];
      assert forall i :: 0 <= i < |front| ==> front[i] == slots[i];
      ExecutedBounds(adds, target, front, before, after);
    }
  }

  lemma SpreadEffectBounds(t: Target, c: Clock, kept: Pending, now: real, r: Report, s': TargetState,
                           before: Ledger, after: Ledger)
    requires t.Valid() && r.Weighed? && Spread(t, c, kept, now, r, s') && Accounted(t, c, now, r, before, after)
    ensures var ups, downs := Executed(true, t.name, r.slots, before, after), Executed(false, t.name, r.slots,
              before, after);
            && (Adds(t, c, now, r) ==> downs == 0 && Total(r.loads) + ups <= t.maxWorkers + Dead(r.slots))
            && (Sheds(t, c, now, r) ==> ups == 0 && Total(r.loads) - downs >= t.minWorkers - Dead(r.slots))
            && (!Adds(t, c, now, r) && !Sheds(t, c, now, r) ==> ups == downs == 0)
  {
    var adds := Adds(t, c, now, r);
    forall i | 0 <= i < |r.slots|
      ensures Scaled(adds, TallyIn(before, (r.slots[i].name, t.name)), TallyIn(after, (r.slots[i].name, t.name)),
                r.slots[i])
    {
      var n := r.slots[i].name;
      assert OneAccounted(t, c, now, r, n, TallyIn(before, (n, t.name)), TallyIn(after, (n, t.name)));
    }
    ExecutedBounds(adds, t.name, r.slots, before, after);
    SpreadBounds(t, c, kept, now, r, s');
  }

  lemma SpreadOnlyFree(t: Target, c: Clock, kept: Pending, now: real, r: Report, s': TargetState)
    requires t.Valid() && r.Weighed? && Spread(t, c, kept, now, r, s')
    ensures forall i :: 0 <= i < |r.slots| ==> r.slots[i].name !in kept
    ensures r.calls > 0 ==> forall l :: l in r.loads && l.name !in kept ==> exists x :: x in r.slots && x.name == l.name
  {
    var free := Eligible(r.loads, kept.Keys);
    EligibleSlots(r.loads, kept.Keys);
    if r.slots != [] {
      assert SameNodes(free, r.slots);
      forall l | l in r.loads && l.name !in kept
        ensures exists x :: x in r.slots && x.name == l.name
      {
        var i :| 0 <= i < |free| && free[i] == l;
        assert r.slots[i] in r.slots && r.slots[i].name == l.name;
      }
    }
  }

  lemma SameBases(a: seq<Slot>, b: seq<Slot>)
    requires SameNodes(a, b)
    ensures Bases(a) == Bases(b)
  {
  }

  lemma SpreadBest(t: Target, c: Clock, kept: Pending, now: real, r: Report, s': TargetState, y: seq<int>)
    requires t.Valid() && r.Weighed? && Spread(t, c, kept, now, r, s') && Dead(r.slots) == 0 && r.slots != []
    requires var base := Bases(Eligible(r.loads, kept.Keys));
             |y| == |base| && forall i :: 0 <= i < |y| ==> if Adds(t, c, now, r) then base[i] <= y[i]
                 else y[i] <= base[i]
    ensures var base := Bases(Eligible(r.loads, kept.Keys));
            && (Adds(t, c, now, r) && Sum(y) == Sum(base) + Given(r.slots) ==> NoWorse(Raise(r.slots), y))
            && (!Adds(t, c, now, r) && Sum(y) == Sum(base) - Given(r.slots) ==> NoWorse(Lower(r.slots), y))
  {
    var free := Eligible(r.loads, kept.Keys);
    SameBases(free, r.slots);
    assert forall i :: 0 <= i < |y| ==> Bases(r.slots)[i] == r.slots[i].base;
    if Adds(t, c, now, r) {
      if Sum(y) == Sum(Bases(free)) + Given(r.slots) { GreedyUpOptimal(r.slots, y); }
    } else {
      if Sum(y) == Sum(Bases(free)) - Given(r.slots) { GreedyDownOptimal(r.slots, y); }
    }
  }

  // ----- The same, of a whole tick -----

  /** A tick that weighed its loads spread them, and setting last_tick first made no difference. */
  lemma TickedSpreads(t: Target, clients: set<string>, s: TargetState, now: real, r: Report, s': TargetState)
    requires t.Valid() && r.Weighed? && Ticked(t, clients, s, now, r, s')
    ensures var due := s.clock.(lastTick := now);
            && Spread(t, due, r.kept, now, r, s') && Gathered(t.nodes, clients, r.replies, r.loads)
            && Adds(t, due, now, r) == Adds(t, s.clock, now, r) && Sheds(t, due, now, r) == Sheds(t, s.clock, now, r)
  {
  }

  /** The load weighed for a node is the number of active processes its group had at some moment of the tick. */
  lemma LoadsWereActive(t: Target, clients: set<string>, s: TargetState, now: real, r: Report, s': TargetState,
                        start: Cells, from: Runs, to: Runs, i: nat)
    requires t.Valid() && r.Weighed? && Ticked(t, clients, s, now, r, s')
    requires Observed(start, from, to, t.name, r) && i < |r.loads|
    ensures var key := (r.loads[i].name, t.name);
            && key in start && key in from && key in to
            && exists k :: ActiveAt(start[key], |from[key]|, to[key], k, r.loads[i].base)
  {
    TickedSpreads(t, clients, s, now, r, s');
    LoadWasActive(start, from, to, t.name, r, i);
  }

  /** The active processes the answers list, node by node. */
  function AllActive(replies: Replies, loads: seq<Slot>): set<(string, nat)>
    requires forall l :: l in loads ==> l.name in replies
  {
    set l, p | l in loads && p in ActiveNames(replies[l.name]) :: (l.name, p)
  }

  ghost predicate EachOnce(infos: seq<ProcInfo>)
  {
    forall i, j :: 0 <= i < j < |infos| ==> infos[i].name != infos[j].name
  }

  function Paired(n: string, names: set<nat>): set<(string, nat)> { set p | p in names :: (n, p) }

  lemma {:induction false} PairsCount(n: string, names: set<nat>)
    ensures |Paired(n, names)| == |names|
  {
    if names != {} {
      var x :| x in names;
      var rest := names - {x};
      PairsCount(n, rest);
      assert Paired(n, names) == Paired(n, rest) + {(n, x)} && (n, x) !in Paired(n, rest);
    }
  }

  lemma ActiveGrows(replies: Replies, front: seq<Slot>, last: Slot)
    requires DistinctNodes(front + [last]) && forall l :: l in front + [last] ==> l.name in replies
    ensures AllActive(replies, front + [last]) ==
            AllActive(replies, front) + Paired(last.name, ActiveNames(replies[last.name]))
    ensures AllActive(replies, front) !! Paired(last.name, ActiveNames(replies[last.name]))
  {
    var all := front + [last];
    assert forall i :: 0 <= i < |front| ==> all[i] == front[i] && front[i].name != all[|front|].name;
  }

  /** The total the queue is weighed against is the number of active processes the answers list. */
  lemma {:induction false} TotalIsActive(replies: Replies, loads: seq<Slot>)
    requires DistinctNodes(loads)
    requires forall l :: l in loads ==>
               l.name in replies && EachOnce(replies[l.name]) && l.base == Load(replies, l.name)
    ensures Total(loads) == |AllActive(replies, loads)|
  {
    if |loads| > 0 {
      var front, last := loads[..|loads| - 1], loads[|loads| - 1];
      TotalIsActive(replies, front);
      assert Bases(loads)[..|front|] == Bases(front);
      assert loads == front + [last];
      ActiveGrows(replies, front, last);
      PairsCount(last.name, ActiveNames(replies[last.name]));
      CountActiveIsCard(replies[last.name]);
    }
  }

  /** Within one tick: acknowledged additions keep the reachable total within max_workers, acknowledged
      stops within min_workers; counting calls whose outcome is unknown as well, the excess is at most one
      worker per node that failed. */
  lemma TickBounds(t: Target, clients: set<string>, s: TargetState, now: real, r: Report, s': TargetState)
    requires t.Valid() && r.Weighed? && Ticked(t, clients, s, now, r, s')
    ensures Adds(t, s.clock, now, r) ==>
              Total(r.loads) + Given(r.slots) <= t.maxWorkers
                  && Total(r.loads) + r.calls <= t.maxWorkers + Dead(r.slots)
    ensures Sheds(t, s.clock, now, r) ==>
              Total(r.loads) - Given(r.slots) >= t.minWorkers
                  && Total(r.loads) - r.calls >= t.minWorkers - Dead(r.slots)
    ensures !Adds(t, s.clock, now, r) && !Sheds(t, s.clock, now, r) ==> r.calls == 0
    ensures Adds(t, s.clock, now, r) ==> r.calls <= t.scaleUpStep + |Eligible(r.loads, r.kept.Keys)|
    ensures Sheds(t, s.clock, now, r) ==> r.calls <= t.scaleDownStep + |Eligible(r.loads, r.kept.Keys)|
  {
    TickedSpreads(t, clients, s, now, r, s');
    SpreadBounds(t, s.clock.(lastTick := now), r.kept, now, r, s');
  }

  /** How much it does: as long as some node takes part and no call fails, all that step and limits allow, but
      for a removal that leaves no active process on any node that takes part. When calls fail, it ends short
      only with every node that takes part failed, or without an active process. */
  lemma TickAmounts(t: Target, clients: set<string>, s: TargetState, now: real, r: Report, s': TargetState, l: Slot)
    requires t.Valid() && r.Weighed? && Ticked(t, clients, s, now, r, s') && l in r.loads && l.name !in r.kept
    ensures Adds(t, s.clock, now, r) ==>
              || Given(r.slots) == Min(t.scaleUpStep, t.maxWorkers - Total(r.loads))
              || forall i :: 0 <= i < |r.slots| ==> !r.slots[i].alive
    ensures Adds(t, s.clock, now, r) && Dead(r.slots) == 0 ==>
              Given(r.slots) == Min(t.scaleUpStep, t.maxWorkers - Total(r.loads))
    ensures Sheds(t, s.clock, now, r) ==>
              || Given(r.slots) == Min(t.scaleDownStep, Total(r.loads) - t.minWorkers)
              || forall i :: 0 <= i < |r.slots| && r.slots[i].alive ==> r.slots[i].given == r.slots[i].base
    ensures r.slots != [] <==> Adds(t, s.clock, now, r) || Sheds(t, s.clock, now, r)
  {
    TickedSpreads(t, clients, s, now, r, s');
    EligibleSlots(r.loads, r.kept.Keys);
    assert Eligible(r.loads, r.kept.Keys) != [];
    SpreadAmounts(t, s.clock.(lastTick := now), r.kept, now, r, s');
  }

  lemma SpreadAmounts(t: Target, c: Clock, kept: Pending, now: real, r: Report, s': TargetState)
    requires t.Valid() && r.Weighed? && Spread(t, c, kept, now, r, s') && Eligible(r.loads, kept.Keys) != []
    ensures Adds(t, c, now, r) ==>
              || Given(r.slots) == Min(t.scaleUpStep, t.maxWorkers - Total(r.loads))
              || (Dead(r.slots) == |r.slots| > 0 && forall i :: 0 <= i < |r.slots| ==> !r.slots[i].alive)
    ensures Sheds(t, c, now, r) ==>
              || Given(r.slots) == Min(t.scaleDownStep, Total(r.loads) - t.minWorkers)
              || forall i :: 0 <= i < |r.slots| && r.slots[i].alive ==> r.slots[i].given == r.slots[i].base
    ensures r.slots != [] <==> Adds(t, c, now, r) || Sheds(t, c, now, r)
  {
    AllDead(r.slots);
  }

  /** What a tick really did to the nodes, acknowledged or not: the workers it had added are within
      max_workers, plus at most one per node that failed; the stops it had carried out leave min_workers,
      less at most one per node that failed; and it never does both. */
  lemma TickEffectBounds(t: Target, clients: set<string>, s: TargetState, now: real, r: Report, s': TargetState,
                         before: Ledger, after: Ledger)
    requires t.Valid() && r.Weighed? && Ticked(t, clients, s, now, r, s')
    requires Accounted(t, s.clock, now, r, before, after)
    ensures var ups, downs := Executed(true, t.name, r.slots, before, after), Executed(false, t.name, r.slots,
              before, after);
            && (Adds(t, s.clock, now, r) ==> downs == 0 && Total(r.loads) + ups <= t.maxWorkers + Dead(r.slots))
            && (Sheds(t, s.clock, now, r) ==> ups == 0 && Total(r.loads) - downs >= t.minWorkers - Dead(r.slots))
            && (!Adds(t, s.clock, now, r) && !Sheds(t, s.clock, now, r) ==> ups == downs == 0)
  {
    TickedSpreads(t, clients, s, now, r, s');
    var due := s.clock.(lastTick := now);
    SameAccount(t, s.clock, due, now, r, before, after);
    SpreadEffectBounds(t, due, r.kept, now, r, s', before, after);
  }

  lemma SameAccount(t: Target, c: Clock, due: Clock, now: real, r: Report, before: Ledger, after: Ledger)
    requires t.Valid() && r.Weighed? && Adds(t, due, now, r) == Adds(t, c, now, r)
    requires Accounted(t, c, now, r, before, after)
    ensures Accounted(t, due, now, r, before, after)
  {
    forall n
      ensures OneAccounted(t, due, now, r, n, TallyIn(before, (n, t.name)), TallyIn(after, (n, t.name)))
    {
      assert OneAccounted(t, c, now, r, n, TallyIn(before, (n, t.name)), TallyIn(after, (n, t.name)));
    }
  }

  /** No node that still had something pending after phase 1 is called, and a reachable node without
      anything pending takes part. */
  lemma OnlyFreeNodes(t: Target, clients: set<string>, s: TargetState, now: real, r: Report, s': TargetState)
    requires t.Valid() && r.Weighed? && Ticked(t, clients, s, now, r, s')
    ensures forall i :: 0 <= i < |r.slots| ==> r.slots[i].name !in r.kept
    ensures r.calls > 0 ==>
              forall l :: l in r.loads && l.name !in r.kept ==> exists x :: x in r.slots && x.name == l.name
  {
    TickedSpreads(t, clients, s, now, r, s');
    SpreadOnlyFree(t, s.clock.(lastTick := now), r.kept, now, r, s');
  }

  /** When no call failed, the tick spread the workers optimally over the nodes that take part: no other
      distribution of as many workers has a smaller sum of squares, a smaller maximum or a larger minimum. */
  lemma SpreadIsOptimal(t: Target, clients: set<string>, s: TargetState, now: real, r: Report, s': TargetState,
                        y: seq<int>)
    requires t.Valid() && r.Weighed? && Ticked(t, clients, s, now, r, s') && Dead(r.slots) == 0 && r.slots != []
    requires var base := Bases(Eligible(r.loads, r.kept.Keys));
             |y| == |base| && forall i :: 0 <= i < |y| ==> if Adds(t, s.clock, now, r) then base[i] <= y[i]
                 else y[i] <= base[i]
    ensures var base := Bases(Eligible(r.loads, r.kept.Keys));
            && (Adds(t, s.clock, now, r) && Sum(y) == Sum(base) + Given(r.slots) ==> NoWorse(Raise(r.slots), y))
            && (!Adds(t, s.clock, now, r) && Sum(y) == Sum(base) - Given(r.slots) ==> NoWorse(Lower(r.slots), y))
  {
    TickedSpreads(t, clients, s, now, r, s');
    SpreadBest(t, s.clock.(lastTick := now), r.kept, now, r, s', y);
  }

  /** The PM2 command, from the active count, the queue and the parameters. */
  lemma CommandExactly(t: Target, clients: set<string>, s: TargetState, now: real, r: Report, s': TargetState)
    requires t.Valid() && r.Commanded? && Ticked(t, clients, s, now, r, s')
    ensures var n := r.active;
            r.command ==
            if now - s.clock.lastUp >= t.cooldownUp as real && n < t.maxWorkers
                && (n < t.minWorkers || n * t.tasksPerWorker < r.queueLen) then
              ScaleBy(Min(t.scaleUpStep, t.maxWorkers - n))
            else if now - s.clock.lastDown >= t.cooldownDown as real && n > t.minWorkers
                && (n > t.maxWorkers || (n - 1) * t.tasksPerWorker >= r.queueLen) then
              ScaleTo(n - Min(t.scaleDownStep, n - t.minWorkers))
            else Nothing
  {
    WorkersMeaning(t.minWorkers, t.maxWorkers, t.tasksPerWorker, r.queueLen, t.minWorkers);
    WantedBeyond(t, r.queueLen, r.active);
  }

  // ----- When a tick has nothing to go by -----

  /** The node was asked, or answered, after phase 1. */
  ghost predicate NodeAnswered(target: string, clients: set<string>, pending: Pending, logs: Logs, node: string,
                               before: multiset<Call>, after: multiset<Call>)
  {
    AskedLater(target, clients, pending, logs, Call((node, target), Asking, true), before, after) > 0
  }

  ghost predicate NodeAsked(target: string, clients: set<string>, pending: Pending, logs: Logs, node: string,
                            before: multiset<Call>, after: multiset<Call>)
  {
    NodeAnswered(target, clients, pending, logs, node, before, after)
    || AskedLater(target, clients, pending, logs, Call((node, target), Asking, false), before, after) > 0
  }

  lemma AskedAre(target: string, clients: set<string>, pending: Pending, logs: Logs, nodes: seq<string>,
                 replies: Replies, node: string, before: multiset<Call>, after: multiset<Call>)
    requires AsksMatch(target, clients, pending, logs, nodes, replies, before, after)
    ensures NodeAnswered(target, clients, pending, logs, node, before, after) <==> node in replies
    ensures NodeAsked(target, clients, pending, logs, node, before, after) <==> node in nodes && node in clients
  {
    assert AskMatches(target, clients, pending, logs, nodes, replies, node, before, after);
  }

  /** A supervisor target that is due weighs its loads exactly when its backend gives a length and some listed
      node answers; with a length, exactly the listed nodes that are configured are asked, without one none. */
  lemma WeighsExactly(t: Target, clients: set<string>, backends: set<string>, queues: Queues, s: TargetState,
                      now: real, r: Report, s': TargetState, before: multiset<Call>, after: multiset<Call>)
    requires t.Valid() && t.kind.Supervisor? && now - s.clock.lastTick >= t.pollInterval as real
    requires Ticked(t, clients, s, now, r, s') && WentBy(backends, queues, t, r)
    requires CallsMatch(t, clients, s, now, r, before, after)
    ensures r.Weighed? || r.Skipped?
    ensures var length := t.queue in backends && Length(queues, t.queue, t.queueKey).Some?;
            && (r.Weighed? <==>
                length && exists n :: NodeAnswered(t.name, clients, s.pending, r.logs, n, before, after))
            && (forall n :: NodeAsked(t.name, clients, s.pending, r.logs, n, before, after) <==>
                              length && n in t.nodes && n in clients)
  {
    var nodes := if r.Weighed? || r.polled.Some? then t.nodes else [];
    var replies := if r.Weighed? then r.replies else map[];
    assert AsksMatch(t.name, clients, s.pending, r.logs, nodes, replies, before, after);
    forall n
      ensures NodeAnswered(t.name, clients, s.pending, r.logs, n, before, after) <==> n in replies
      ensures NodeAsked(t.name, clients, s.pending, r.logs, n, before, after) <==> n in nodes && n in clients
    {
      AskedAre(t.name, clients, s.pending, r.logs, nodes, replies, n, before, after);
    }
    if r.Weighed? {
      assert r.loads[0] in r.loads && r.loads[0].name in NodeNames(r.loads);
      assert NodeAnswered(t.name, clients, s.pending, r.logs, r.loads[0].name, before, after);
    }
  }

  /** A PM2 target that is due is decided on exactly when its backend gives a length and PM2 lists its instances. */
  lemma DecidesExactly(t: Target, clients: set<string>, backends: set<string>, queues: Queues, s: TargetState,
                       now: real, r: Report, s': TargetState)
    requires t.Valid() && t.kind.Pm2? && now - s.clock.lastTick >= t.pollInterval as real
    requires Ticked(t, clients, s, now, r, s') && WentBy(backends, queues, t, r)
    ensures r.Commanded? || r.Pm2Skipped?
    ensures r.Commanded? <==>
              && t.queue in backends && Length(queues, t.queue, t.queueKey).Some?
              && Listed(t.program, true) in PilotCalls(t.program, r)
    ensures t.queue in backends && Length(queues, t.queue, t.queueKey).Some? ==>
              exists ok :: Listed(t.program, ok) in PilotCalls(t.program, r)
  {
    assert PilotCalls(t.program, r) != [] ==> PilotCalls(t.program, r)[0].Listed?;
  }

  /** The PM2 command keeps the count within the limits, whatever the queue. */
  lemma CommandWithinLimits(t: Target, s: TargetState, now: real, r: Report, s': TargetState)
    requires t.Valid() && Piloted(t, s, now, r, s') && r.Commanded?
    requires t.minWorkers <= r.active <= t.maxWorkers
    ensures t.minWorkers <= Execute(r.command, r.active) <= t.maxWorkers
  {
    WorkersMeaning(t.minWorkers, t.maxWorkers, t.tasksPerWorker, r.queueLen, t.minWorkers);
    BandIsInvariant(t, Wanted(t, r.queueLen), r.active, UpAllowed(t, s.clock, now), DownAllowed(t, s.clock, now));
  }
}
