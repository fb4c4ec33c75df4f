/** Phases 3, 5 and 6 of a supervisor tick: gathering loads and the two distribution loops. */
module Distribution {
  import opened Names
  import opened Group
  import opened Plugin
  import opened Tallies
  import opened Cluster
  import opened Balancer
  import opened Confirmation

  type Replies = map<string, seq<ProcInfo>>

  // ----- One round of a loop -----

  ghost predicate SameNodes(a: seq<Slot>, b: seq<Slot>)
  {
    |a| == |b| && forall i :: 0 <= i < |a| ==> a[i].name == b[i].name && a[i].base == b[i].base
  }

  ghost predicate Untouched(slots: seq<Slot>)
  {
    forall i :: 0 <= i < |slots| ==> slots[i].given == 0 && slots[i].alive
  }

  lemma {:induction false} UntouchedCounts(slots: seq<Slot>)
    requires Untouched(slots)
    ensures Given(slots) == 0 && Dead(slots) == 0
  {
    if |slots| > 0 {
      UntouchedCounts(slots[..|slots| - 1]);
    }
  }

  function Answer(slots: seq<Slot>, k: nat): seq<Slot>
    requires k < |slots|
  {
    slots[k := slots[k].(given := slots[k].given + 1)]
  }

  function Fail(slots: seq<Slot>, k: nat): seq<Slot>
    requires k < |slots|
  {
    slots[k := slots[k].(alive := false)]
  }

  lemma RoundCounts(slots: seq<Slot>, k: nat)
    requires k < |slots| && slots[k].alive
    ensures Given(Answer(slots, k)) == Given(slots) + 1 && Dead(Answer(slots, k)) == Dead(slots)
    ensures Given(Fail(slots, k)) == Given(slots) && Dead(Fail(slots, k)) == Dead(slots) + 1
  {
    SlotUpdate(slots, k, Answer(slots, k)[k]);
    SlotUpdate(slots, k, Fail(slots, k)[k]);
  }

  lemma UpAnswered(slots: seq<Slot>, k: nat)
    requires FairUp(slots) && Least(slots) == Some(k)
    ensures FairUp(Answer(slots, k))
  {
    var after := Answer(slots, k);
    forall i, j | 0 <= i < |after| && 0 <= j < |after| && after[i].given > 0 && after[j].alive
      ensures after[i].Raised() <= after[j].Raised() + if j < i then 0 else 1
    {
      assert slots[j].alive && slots[j].Raised() <= after[j].Raised();
      assert i != k ==> slots[i] == after[i];
    }
  }

  lemma UpFailed(slots: seq<Slot>, k: nat)
    requires FairUp(slots) && k < |slots|
    ensures FairUp(Fail(slots, k))
  {
  }

  lemma DownAnswered(slots: seq<Slot>, k: nat)
    requires FairDown(slots) && Most(slots) == Some(k) && slots[k].Lowered() > 0
    ensures FairDown(Answer(slots, k))
  {
    var after := Answer(slots, k);
    forall i, j | 0 <= i < |after| && 0 <= j < |after| && after[i].given > 0 && after[j].alive
      ensures after[i].Lowered() + (if j < i then 0 else 1) >= after[j].Lowered()
    {
      assert slots[j].alive && after[j].Lowered() <= slots[j].Lowered();
      assert i != k ==> slots[i] == after[i];
    }
  }

  lemma DownFailed(slots: seq<Slot>, k: nat)
    requires FairDown(slots) && k < |slots|
    ensures FairDown(Fail(slots, k))
  {
  }

  // ----- What the calls did on the nodes -----

  function NodeNames(slots: seq<Slot>): set<string> { set s | s in slots :: s.name }

  ghost predicate DistinctNodes(slots: seq<Slot>)
  {
    forall i, j :: 0 <= i < j < |slots| ==> slots[i].name != slots[j].name
  }

  /** The calls a slot stands for were made: as many were seen answered as it was given; the node executed
      those, and at most one more if its last call failed. */
  ghost predicate Moved(adding: bool, t: Tally, t': Tally, s: Slot)
  {
    var unknown := if s.alive then 0 else 1;
    && t'.gone == t.gone && (adding ==> t'.named == t.named)
    && if adding then
         && t'.upsSeen == t.upsSeen + s.given && t.ups + s.given <= t'.ups <= t.ups + s.given + unknown
         && t'.downs == t.downs && t'.downsSeen == t.downsSeen
       else
         && t'.downsSeen == t.downsSeen + s.given && t.downs + s.given <= t'.downs <= t.downs + s.given + unknown
         && t'.ups == t.ups && t'.upsSeen == t.upsSeen
  }

  /** So for every slot; no other group was scaled. */
  ghost predicate AllMoved(adding: bool, t: Ledger, t': Ledger, target: string, slots: seq<Slot>)
  {
    && (forall i :: 0 <= i < |slots| ==>
          Moved(adding, TallyIn(t, (slots[i].name, target)), TallyIn(t', (slots[i].name, target)), slots[i]))
    && (forall k: Key :: k.1 != target || k.0 !in NodeNames(slots) ==> TallyIn(t', k) == TallyIn(t, k))
  }

  lemma MovedOne(adding: bool, t: Ledger, mid: Ledger, t': Ledger, target: string,
                 slots: seq<Slot>, after: seq<Slot>, k: nat)
    requires AllMoved(adding, t, mid, target, slots) && DistinctNodes(slots) && k < |slots|
    requires SameNodes(slots, after) && forall i :: 0 <= i < |slots| && i != k ==> after[i] == slots[i]
    requires forall key :: key != (slots[k].name, target) ==> TallyIn(t', key) == TallyIn(mid, key)
    requires Moved(adding, TallyIn(t, (slots[k].name, target)), TallyIn(t', (slots[k].name, target)), after[k])
    ensures AllMoved(adding, t, t', target, after)
  {
    forall n | n in NodeNames(slots)
      ensures n in NodeNames(after)
    {
      var i :| 0 <= i < |slots| && slots[i].name == n;
      assert after[i] in after;
    }
    assert slots[k] in slots;
  }

  lemma MovedUp(t: Ledger, mid: Ledger, t': Ledger, target: string, slots: seq<Slot>, k: nat, ok: bool)
    requires AllMoved(true, t, mid, target, slots) && DistinctNodes(slots) && k < |slots| && slots[k].alive
    requires UpCalled(mid, t', (slots[k].name, target), ok)
    ensures AllMoved(true, t, t', target, if ok then Answer(slots, k) else Fail(slots, k))
  {
    MovedOne(true, t, mid, t', target, slots, if ok then Answer(slots, k) else Fail(slots, k), k);
  }

  lemma MovedDown(t: Ledger, mid: Ledger, t': Ledger, target: string, slots: seq<Slot>, k: nat, names: seq<nat>,
                  ok: bool)
    requires AllMoved(false, t, mid, target, slots) && DistinctNodes(slots) && k < |slots| && slots[k].alive
    requires DownCalled(mid, t', (slots[k].name, target), names, ok)
    ensures AllMoved(false, t, t', target, if ok then Answer(slots, k) else Fail(slots, k))
  {
    MovedOne(false, t, mid, t', target, slots, if ok then Answer(slots, k) else Fail(slots, k), k);
  }

  /** The calls a slot stands for were placed: one per answer, and one more that failed if the node dropped out. */
  ghost predicate SlotPlaced(op: Op, target: string, s: Slot, before: multiset<Call>, after: multiset<Call>)
  {
    var key := (s.name, target);
    && after[Call(key, op, true)] == before[Call(key, op, true)] + s.given
    && after[Call(key, op, false)] == before[Call(key, op, false)] + if s.alive then 0 else 1
  }

  /** So for every slot, and no other call was placed. */
  ghost predicate Placed(op: Op, target: string, slots: seq<Slot>, before: multiset<Call>, after: multiset<Call>)
  {
    && (forall i :: 0 <= i < |slots| ==> SlotPlaced(op, target, slots[i], before, after))
    && (forall c: Call :: c.op != op || c.key.1 != target || c.key.0 !in NodeNames(slots) ==> after[c] == before[c])
  }

  lemma PlacedOne(op: Op, target: string, slots: seq<Slot>, k: nat, ok: bool, before: multiset<Call>,
                  mid: multiset<Call>,
                  after: multiset<Call>)
    requires Placed(op, target, slots, before, mid) && DistinctNodes(slots) && k < |slots| && slots[k].alive
    requires after == mid + multiset{Call((slots[k].name, target), op, ok)}
    ensures Placed(op, target, if ok then Answer(slots, k) else Fail(slots, k), before, after)
  {
    var slots' := if ok then Answer(slots, k) else Fail(slots, k);
    forall i | 0 <= i < |slots'|
      ensures SlotPlaced(op, target, slots'[i], before, after)
    {
      assert SlotPlaced(op, target, slots[i], before, mid);
      if i != k { assert slots[i].name != slots[k].name; }
    }
    SameNames(slots, slots');
    assert slots[k].name in NodeNames(slots);
  }

  lemma SameNames(a: seq<Slot>, b: seq<Slot>)
    requires SameNodes(a, b)
    ensures NodeNames(a) == NodeNames(b)
  {
    forall n | n in NodeNames(a)
      ensures n in NodeNames(b)
    {
      var i :| 0 <= i < |a| && a[i].name == n;
      assert b[i] in b;
    }
    forall n | n in NodeNames(b)
      ensures n in NodeNames(a)
    {
      var i :| 0 <= i < |b| && b[i].name == n;
      assert a[i] in a;
    }
  }

  lemma StillDistinct(a: seq<Slot>, b: seq<Slot>)
    requires DistinctNodes(a) && SameNodes(a, b)
    ensures DistinctNodes(b)
  {
  }

  // ----- Scale up -----

  ghost predicate Free(cells: Cells, target: string, slots: seq<Slot>)
  {
    forall i :: 0 <= i < |slots| ==> PendingIn(cells, (slots[i].name, target)) == {}
  }

  /** The state of the loop: what has been answered, what remains, and how many calls that took. */
  ghost predicate UpLoop(start: seq<Slot>, slots: seq<Slot>, total: nat, remaining: nat, calls: nat)
  {
    SameNodes(start, slots) && FairUp(slots) && Given(slots) + remaining == total && calls == Calls(slots)
  }

  lemma UpLoopRound(start: seq<Slot>, slots: seq<Slot>, total: nat, remaining: nat, calls: nat, k: nat)
    requires UpLoop(start, slots, total, remaining, calls) && remaining > 0 && Least(slots) == Some(k)
    ensures UpLoop(start, Answer(slots, k), total, remaining - 1, calls + 1)
    ensures UpLoop(start, Fail(slots, k), total, remaining, calls + 1)
    ensures Dead(Answer(slots, k)) == Dead(slots) && Dead(Fail(slots, k)) == Dead(slots) + 1
  {
    RoundCounts(slots, k);
    UpAnswered(slots, k);
    UpFailed(slots, k);
  }

  lemma StillFree(before: Cells, cells: Cells, target: string, start: seq<Slot>, slots: seq<Slot>, k: nat)
    requires SamePending(before, cells) && Free(before, target, start) && SameNodes(start, slots) && k < |slots|
    ensures PendingIn(cells, (slots[k].name, target)) == {}
  {
    assert PendingIn(before, (start[k].name, target)) == {};
  }

  /** What scale-up comes to: every call is answered or fails, a node that fails is not called again, and
      the loop ends when `total` calls were answered or no node is left. */
  ghost predicate Grown(start: seq<Slot>, total: nat, slots: seq<Slot>, calls: nat)
  {
    && SameNodes(start, slots) && FairUp(slots)
    && calls == Calls(slots) <= total + |start|
    && Given(slots) <= total && (Given(slots) == total || Dead(slots) == |slots|)
  }

  /** Least-loaded first. Every call is counted, so there are at most total + |slots| of them; a node
      that fails is not called again. */
  method DistributeUp(cluster: Cluster, target: string, start: seq<Slot>, total: nat)
    returns (slots: seq<Slot>, calls: nat)
    requires cluster.Valid() && Untouched(start) && DistinctNodes(start) && Free(cluster.cells, target, start)
    modifies cluster
    ensures cluster.Valid() && SamePending(old(cluster.cells), cluster.cells)
    ensures Grown(start, total, slots, calls)
    ensures AllMoved(true, old(cluster.tallies), cluster.tallies, target, slots)
    ensures Placed(Raising, target, slots, old(cluster.calls), cluster.calls)
    ensures Later(old(cluster.runs), cluster.runs)
  {
    slots, calls := start, 0;
    var remaining: nat := total;
    UntouchedCounts(slots);
    while remaining > 0 && Least(slots).Some?
      invariant cluster.Valid() && SamePending(old(cluster.cells), cluster.cells)
      invariant UpLoop(start, slots, total, remaining, calls)
      invariant AllMoved(true, old(cluster.tallies), cluster.tallies, target, slots)
      invariant Placed(Raising, target, slots, old(cluster.calls), cluster.calls)
      invariant Later(old(cluster.runs), cluster.runs)
      decreases remaining + |slots| - Dead(slots)
    {
      var least := Least(slots).value;
      UpLoopRound(start, slots, total, remaining, calls, least);
      StillFree(old(cluster.cells), cluster.cells, target, start, slots, least);
      StillDistinct(start, slots);
      ghost var tallies, earlier, placed := cluster.tallies, cluster.runs, cluster.calls;
      var r := cluster.ScaleUp((slots[least].name, target));
      PlacedOne(Raising, target, slots, least, r.Ok?, old(cluster.calls), placed, cluster.calls);
      LaterStill(old(cluster.runs), earlier, cluster.runs);
      MovedUp(old(cluster.tallies), tallies, cluster.tallies, target, slots, least, r.Ok?);
      calls := calls + 1;
      if r.Ok? {
        slots := Answer(slots, least);
        remaining := remaining - 1;
      } else {
        slots := Fail(slots, least);
      }
    }
    AllDead(slots);
  }

  // ----- Scale down -----

  function Extended(pending: Pending, node: string, names: seq<nat>): Pending
  {
    pending[node := (if node in pending then pending[node] else []) + names]
  }

  lemma TracksExtended(cells: Cells, cells': Cells, target: string, m: Pending,
                       node: string, names: seq<nat>)
    requires Tracks(cells, target, m) && SamePendingExcept(cells, cells', (node, target))
    requires PendingIn(cells', (node, target)) == PendingIn(cells, (node, target)) + SetOf(names)
    ensures Tracks(cells', target, Extended(m, node, names)) && OthersKept(cells, cells', target)
  {
    var longer := (if node in m then m[node] else []) + names;
    assert SetOf(longer) == Held(m, node) + SetOf(names);
    assert PendingIn(cells, (node, target)) == Held(m, node);
    forall n
      ensures PendingIn(cells', (n, target)) == Held(Extended(m, node, names), n)
    {
      if n != node { assert PendingIn(cells', (n, target)) == PendingIn(cells, (n, target)); }
    }
  }

  lemma TracksKept(cells: Cells, cells': Cells, target: string, m: Pending, node: string)
    requires Tracks(cells, target, m) && SamePendingExcept(cells, cells', (node, target))
    requires PendingIn(cells', (node, target)) == PendingIn(cells, (node, target))
    ensures Tracks(cells', target, m) && OthersKept(cells, cells', target)
  {
    forall n
      ensures PendingIn(cells', (n, target)) == Held(m, n)
    {
      assert PendingIn(cells', (n, target)) == PendingIn(cells, (n, target));
    }
  }

  /** The nodes that acknowledged a stop call. */
  function Stopped(slots: seq<Slot>): set<string> { set s | s in slots && s.given > 0 :: s.name }

  lemma StoppedGrows(slots: seq<Slot>, k: nat)
    requires k < |slots|
    ensures Stopped(Answer(slots, k)) == Stopped(slots) + {slots[k].name}
    ensures Stopped(Fail(slots, k)) == Stopped(slots)
  {
    forall n | n in Stopped(slots)
      ensures n in Stopped(Answer(slots, k)) && n in Stopped(Fail(slots, k))
    {
      var s :| s in slots && s.given > 0 && s.name == n;
      var i :| 0 <= i < |slots| && slots[i] == s;
      assert Answer(slots, k)[i] in Answer(slots, k) && Fail(slots, k)[i] in Fail(slots, k);
    }
    assert Answer(slots, k)[k] in Answer(slots, k);
  }

  ghost predicate DownLoop(start: seq<Slot>, slots: seq<Slot>, total: nat, remaining: nat, calls: nat)
  {
    SameNodes(start, slots) && FairDown(slots) && Given(slots) + remaining == total && calls == Calls(slots)
  }

  function ListOf(m: Pending, node: string): seq<nat> { if node in m then m[node] else [] }

  /** The list has grown by these names, in any order. */
  ghost predicate GrownBy(had: seq<nat>, has: seq<nat>, before: multiset<nat>, after: multiset<nat>)
  {
    had <= has && after == before + multiset(has[|had|..])
  }

  /** What a node's pending list gained is what its scaleDown replies named. */
  ghost predicate OneAttributed(pending: Pending, after: Pending, t: Ledger, t': Ledger, target: string, node: string)
  {
    GrownBy(ListOf(pending, node), ListOf(after, node), TallyIn(t, (node, target)).named,
            TallyIn(t', (node, target)).named)
  }

  ghost predicate Attributed(pending: Pending, after: Pending, t: Ledger, t': Ledger, target: string)
  {
    forall n {:trigger OneAttributed(pending, after, t, t', target, n)} ::
      OneAttributed(pending, after, t, t', target, n)
  }

  lemma AttributedStart(pending: Pending, t: Ledger, target: string)
    ensures Attributed(pending, pending, t, t, target)
  {
  }

  lemma GrownMore(had: seq<nat>, has: seq<nat>, names: seq<nat>, before: multiset<nat>, mid: multiset<nat>,
                  after: multiset<nat>)
    requires GrownBy(had, has, before, mid) && after == mid + multiset(names)
    ensures GrownBy(had, has + names, before, after)
  {
    assert (has + names)[|had|..] == has[|had|..] + names;
  }

  lemma AttributedRound(pending: Pending, after: Pending, t: Ledger, mid: Ledger, t': Ledger, target: string,
                        node: string, names: seq<nat>, ok: bool, longer: Pending)
    requires Attributed(pending, after, t, mid, target) && DownCalled(mid, t', (node, target), names, ok)
    requires longer == if ok then Extended(after, node, names) else after
    ensures Attributed(pending, longer, t, t', target)
  {
    forall n
      ensures OneAttributed(pending, longer, t, t', target, n)
    {
      assert OneAttributed(pending, after, t, mid, target, n);
      var given := if n == node && ok then names else [];
      NamedBy(mid, t', (node, target), names, ok, (n, target));
      ListGrows(after, node, names, ok, longer, n);
      GrownMore(ListOf(pending, n), ListOf(after, n), given, TallyIn(t, (n, target)).named,
                TallyIn(mid, (n, target)).named, TallyIn(t', (n, target)).named);
    }
  }

  lemma ListGrows(after: Pending, node: string, names: seq<nat>, ok: bool, longer: Pending, n: string)
    requires longer == if ok then Extended(after, node, names) else after
    ensures ListOf(longer, n) == ListOf(after, n) + if n == node && ok then names else []
  {
  }

  lemma NamedBy(t: Ledger, t': Ledger, key: Key, names: seq<nat>, ok: bool, k: Key)
    requires DownCalled(t, t', key, names, ok)
    ensures TallyIn(t', k).named == TallyIn(t, k).named + if ok && k == key then multiset(names) else multiset([])
  {
  }

  /** Only nodes that acknowledged a stop got new pending names. */
  ghost predicate Marked(pending: Pending, after: Pending, slots: seq<Slot>)
  {
    && after.Keys == pending.Keys + Stopped(slots)
    && forall n :: n in pending && n !in Stopped(slots) ==> after[n] == pending[n]
  }

  lemma DownLoopRound(start: seq<Slot>, slots: seq<Slot>, total: nat, remaining: nat, calls: nat, k: nat)
    requires DownLoop(start, slots, total, remaining, calls) && remaining > 0
    requires Most(slots) == Some(k) && slots[k].Lowered() > 0
    ensures DownLoop(start, Answer(slots, k), total, remaining - 1, calls + 1)
    ensures DownLoop(start, Fail(slots, k), total, remaining, calls + 1)
    ensures Dead(Answer(slots, k)) == Dead(slots) && Dead(Fail(slots, k)) == Dead(slots) + 1
  {
    RoundCounts(slots, k);
    DownAnswered(slots, k);
    DownFailed(slots, k);
  }

  lemma MarkedRound(pending: Pending, after: Pending, slots: seq<Slot>, k: nat, names: seq<nat>)
    requires Marked(pending, after, slots) && k < |slots|
    ensures Marked(pending, Extended(after, slots[k].name, names), Answer(slots, k))
    ensures Marked(pending, after, Fail(slots, k))
  {
    StoppedGrows(slots, k);
  }

  /** One round: the call, and what the node says it is stopping becomes pending for it. */
  method StopOne(cluster: Cluster, target: string, node: string, pending: Pending)
    returns (after: Pending, ok: bool, ghost names: seq<nat>)
    requires cluster.Valid() && Tracks(cluster.cells, target, pending)
    modifies cluster
    ensures cluster.Valid() && Tracks(cluster.cells, target, after)
              && OthersKept(old(cluster.cells), cluster.cells, target)
    ensures after == if ok then Extended(pending, node, names) else pending
    ensures DownCalled(old(cluster.tallies), cluster.tallies, (node, target), names, ok)
    ensures cluster.calls == old(cluster.calls) + multiset{Call((node, target), Lowering, ok)}
    ensures Later(old(cluster.runs), cluster.runs)
  {
    var r := cluster.ScaleDown((node, target));
    if r.Fault? {
      TracksKept(old(cluster.cells), cluster.cells, target, pending, node);
      return pending, false, [];
    }
    TracksExtended(old(cluster.cells), cluster.cells, target, pending, node, r.value);
    return Extended(pending, node, r.value), true, r.value;
  }

  /** What scale-down comes to; it also ends when the candidates have no active process left. */
  ghost predicate Shrunk(start: seq<Slot>, total: nat, slots: seq<Slot>, calls: nat)
  {
    && SameNodes(start, slots) && FairDown(slots)
    && calls == Calls(slots) <= total + |start|
    && Given(slots) <= total
    && (Given(slots) == total || forall i :: 0 <= i < |slots| && slots[i].alive ==> slots[i].Lowered() == 0)
  }

  /** The loop has done this much since it started with cells and tallies c0 and t0. */
  ghost predicate DownState(c0: Cells, cells: Cells, t0: Ledger, tallies: Ledger,
                            target: string, start: seq<Slot>, slots: seq<Slot>, total: nat, remaining: nat, calls: nat,
                            pending: Pending, after: Pending)
  {
    && DownLoop(start, slots, total, remaining, calls) && Marked(pending, after, slots) && DistinctNodes(start)
    && OthersKept(c0, cells, target) && AllMoved(false, t0, tallies, target, slots)
  }

  lemma DownRound(c0: Cells, before: Cells, cells: Cells, t0: Ledger,
                  mid: Ledger, tallies: Ledger, target: string, start: seq<Slot>, slots: seq<Slot>,
                  total: nat, remaining: nat, calls: nat, pending: Pending, after: Pending,
                  k: nat, ok: bool, names: seq<nat>, longer: Pending)
    requires DownState(c0, before, t0, mid, target, start, slots, total, remaining, calls, pending, after)
    requires remaining > 0 && Most(slots) == Some(k) && slots[k].Lowered() > 0
    requires OthersKept(before, cells, target) && DownCalled(mid, tallies, (slots[k].name, target), names, ok)
    requires longer == if ok then Extended(after, slots[k].name, names) else after
    ensures var slots' := if ok then Answer(slots, k) else Fail(slots, k);
            var remaining' := if ok then remaining - 1 else remaining;
            && DownState(c0, cells, t0, tallies, target, start, slots', total, remaining', calls + 1, pending, longer)
            && Dead(slots') == Dead(slots) + if ok then 0 else 1
  {
    DownLoopRound(start, slots, total, remaining, calls, k);
    StillDistinct(start, slots);
    OthersKeptTransitive(c0, before, cells, target);
    MarkedRound(pending, after, slots, k, names);
    MovedDown(t0, mid, tallies, target, slots, k, names, ok);
  }

  lemma DownDone(start: seq<Slot>, slots: seq<Slot>, total: nat, remaining: nat, calls: nat)
    requires DownLoop(start, slots, total, remaining, calls)
    requires remaining == 0 || Most(slots).None? || slots[Most(slots).value].Lowered() <= 0
    ensures Shrunk(start, total, slots, calls)
  {
    AllDead(slots);
  }

  /** Most-loaded first. */
  method DistributeDown(cluster: Cluster, target: string, start: seq<Slot>, total: nat, pending: Pending)
    returns (slots: seq<Slot>, after: Pending, calls: nat)
    requires cluster.Valid() && Untouched(start) && DistinctNodes(start) && Tracks(cluster.cells, target, pending)
    modifies cluster
    ensures cluster.Valid() && Tracks(cluster.cells, target, after)
              && OthersKept(old(cluster.cells), cluster.cells, target)
    ensures Shrunk(start, total, slots, calls) && Marked(pending, after, slots)
    ensures AllMoved(false, old(cluster.tallies), cluster.tallies, target, slots)
    ensures Attributed(pending, after, old(cluster.tallies), cluster.tallies, target)
    ensures Placed(Lowering, target, slots, old(cluster.calls), cluster.calls)
    ensures Later(old(cluster.runs), cluster.runs)
  {
    slots, after, calls := start, pending, 0;
    AttributedStart(pending, cluster.tallies, target);
    var remaining: nat := total;
    UntouchedCounts(slots);
    while remaining > 0 && Most(slots).Some?
      invariant cluster.Valid() && Tracks(cluster.cells, target, after)
      invariant DownState(old(cluster.cells), cluster.cells, old(cluster.tallies), cluster.tallies, target,
                          start, slots, total, remaining, calls, pending, after)
      invariant Attributed(pending, after, old(cluster.tallies), cluster.tallies, target)
      invariant Placed(Lowering, target, slots, old(cluster.calls), cluster.calls)
      invariant Later(old(cluster.runs), cluster.runs)
      decreases remaining + |slots| - Dead(slots)
    {
      var most := Most(slots).value;
      if slots[most].Lowered() <= 0 {
        break;
      }
      ghost var cells, tallies, earlier := cluster.cells, cluster.tallies, cluster.runs;
      ghost var placed := cluster.calls;
      StillDistinct(start, slots);
      var longer, ok, names := StopOne(cluster, target, slots[most].name, after);
      DownRound(old(cluster.cells), cells, cluster.cells, old(cluster.tallies), tallies, cluster.tallies, target,
                start, slots, total, remaining, calls, pending, after, most, ok, names, longer);
      AttributedRound(pending, after, old(cluster.tallies), tallies, cluster.tallies, target, slots[most].name, names,
                      ok, longer);
      LaterStill(old(cluster.runs), earlier, cluster.runs);
      PlacedOne(Lowering, target, slots, most, ok, old(cluster.calls), placed, cluster.calls);
      after, calls := longer, calls + 1;
      if ok {
        slots := Answer(slots, most);
        remaining := remaining - 1;
      } else {
        slots := Fail(slots, most);
      }
    }
    DownDone(start, slots, total, remaining, calls);
  }

  // ----- Gathering loads -----

  /** How many of the reported processes are starting, running or backing off. */
  function CountActive(infos: seq<ProcInfo>): nat
  {
    if |infos| == 0 then 0
    else CountActive(infos[..|infos| - 1]) + if IsActive(infos[|infos| - 1].state) then 1 else 0
  }

  function ActiveNames(infos: seq<ProcInfo>): set<nat> { set p | p in infos && IsActive(p.state) :: p.name }

  lemma {:induction false} CountActiveIsCard(infos: seq<ProcInfo>)
    requires forall i, j :: 0 <= i < j < |infos| ==> infos[i].name != infos[j].name
    ensures CountActive(infos) == |ActiveNames(infos)|
  {
    if |infos| > 0 {
      var front, last := infos[..|infos| - 1], infos[|infos| - 1];
      CountActiveIsCard(front);
      assert infos == front + [last];
      assert ActiveNames(infos) == ActiveNames(front) + if IsActive(last.state) then {last.name} else {};
      assert forall i :: 0 <= i < |front| ==> front[i].name != last.name;
      assert last.name !in ActiveNames(front);
    }
  }

  function ActiveProcesses(v: GroupView): set<nat> { set i | i in v.procs && IsActive(v.procs[i]) }

  /** The gathered count is the number of active processes of the group at the moment of the reply. */
  lemma CountActiveCountsGroup(v: GroupView, infos: seq<ProcInfo>)
    requires ReportsGroup(v, infos)
    ensures CountActive(infos) == |ActiveProcesses(v)|
  {
    var t := v.template;
    forall i, j | 0 <= i < j < |infos|
      ensures infos[i].name != infos[j].name
    {
      assert t.Before(infos[i].name, infos[j].name);
      LessIrreflexive(t.NameOf(infos[i].name));
    }
    CountActiveIsCard(infos);
    forall i | i in v.procs && IsActive(v.procs[i])
      ensures i in ActiveNames(infos)
    {
      var j :| 0 <= j < |infos| && infos[j].name == i;
      assert infos[j] in infos;
    }
    assert ActiveNames(infos) == ActiveProcesses(v);
  }

  function Find(slots: seq<Slot>, name: string): (r: Option<nat>)
    ensures r.Some? ==> r.value < |slots| && slots[r.value].name == name
    ensures r.None? ==> forall i :: 0 <= i < |slots| ==> slots[i].name != name
  {
    if |slots| == 0 then None
    else if slots[|slots| - 1].name == name then Some(|slots| - 1)
    else Find(slots[..|slots| - 1], name)
  }

  /** The loads are what the nodes answered: one entry per reachable configured node. */
  ghost predicate Gathered(nodes: seq<string>, clients: set<string>, replies: Replies, slots: seq<Slot>)
  {
    && Untouched(slots) && DistinctNodes(slots) && Matches(replies, slots) && Answered(nodes, clients, replies)
    && AsListed(nodes, slots)
  }

  ghost predicate Precedes(nodes: seq<string>, a: string, b: string)
  {
    exists p, q :: 0 <= p < q < |nodes| && nodes[p] == a && nodes[q] == b
  }

  /** The entries are in the order in which the nodes are listed. */
  ghost predicate AsListed(nodes: seq<string>, slots: seq<Slot>)
  {
    forall i, j {:trigger Precedes(nodes, slots[i].name, slots[j].name)} :: 0 <= i < j < |slots| ==>
      Precedes(nodes, slots[i].name, slots[j].name)
  }

  lemma PrecedesLonger(nodes: seq<string>, node: string, a: string, b: string)
    requires Precedes(nodes, a, b)
    ensures Precedes(nodes + [node], a, b)
  {
    var p, q :| 0 <= p < q < |nodes| && nodes[p] == a && nodes[q] == b;
    var longer := nodes + [node];
    assert longer[p] == a && longer[q] == b;
  }

  lemma PrecedesNew(nodes: seq<string>, node: string, a: string)
    requires a in nodes
    ensures Precedes(nodes + [node], a, node)
  {
    var p :| 0 <= p < |nodes| && nodes[p] == a;
    var longer := nodes + [node];
    assert longer[p] == a && longer[|nodes|] == node;
  }

  lemma ListedLonger(nodes: seq<string>, node: string, slots: seq<Slot>)
    requires AsListed(nodes, slots)
    ensures AsListed(nodes + [node], slots)
  {
    var longer := nodes + [node];
    forall i, j | 0 <= i < j < |slots|
      ensures Precedes(longer, slots[i].name, slots[j].name)
    {
      PrecedesLonger(nodes, node, slots[i].name, slots[j].name);
    }
  }

  lemma EnterAsListed(nodes: seq<string>, slots: seq<Slot>, node: string, active: nat)
    requires AsListed(nodes, slots) && forall i :: 0 <= i < |slots| ==> slots[i].name in nodes
    ensures AsListed(nodes + [node], Enter(slots, node, active))
  {
    var longer, after := nodes + [node], Enter(slots, node, active);
    forall i, j | 0 <= i < j < |after|
      ensures Precedes(longer, after[i].name, after[j].name)
    {
      if j < |slots| {
        PrecedesLonger(nodes, node, slots[i].name, slots[j].name);
      } else {
        PrecedesNew(nodes, node, slots[i].name);
      }
    }
  }

  ghost predicate Answered(nodes: seq<string>, clients: set<string>, replies: Replies)
  {
    forall n :: n in replies ==> n in nodes && n in clients
  }

  /** The replies describe the groups between these moments. */
  ghost predicate AllReported(start: Cells, from: Runs, to: Runs, target: string,
                              replies: Replies)
  {
    forall n :: n in replies ==> Seen(start, from, to, (n, target), replies[n])
  }

  lemma AllReportedLonger(start: Cells, a: Runs, b: Runs, c: Runs,
                          d: Runs, target: string, replies: Replies)
    requires AllReported(start, b, c, target, replies) && Later(a, b) && Later(c, d)
    ensures AllReported(start, a, d, target, replies)
  {
    forall n | n in replies
      ensures Seen(start, a, d, (n, target), replies[n])
    {
      SeenLonger(start, a, b, c, d, (n, target), replies[n]);
    }
  }

  lemma AllReportedPut(start: Cells, from: Runs, mid: Runs, to: Runs,
                       target: string, replies: Replies, node: string, infos: Option<seq<ProcInfo>>)
    requires AllReported(start, from, mid, target, replies) && Later(from, mid) && Later(mid, to)
    requires infos.Some? ==> Seen(start, mid, to, (node, target), infos.value)
    ensures AllReported(start, from, to, target, if infos.Some? then replies[node := infos.value] else replies)
    ensures Later(from, to)
  {
    LaterStill(from, mid, to);
    AllReportedLonger(start, from, from, mid, to, target, replies);
    if infos.Some? { SeenLonger(start, from, mid, to, to, (node, target), infos.value); }
  }

  /** What getGroupInfo said about a node comes down to. */
  function Load(replies: Replies, node: string): nat
    requires node in replies
  {
    CountActive(replies[node])
  }

  ghost predicate Matches(replies: Replies, slots: seq<Slot>)
  {
    replies.Keys == NodeNames(slots) && forall s :: s in slots ==> s.base == Load(replies, s.name)
  }

  /** Sets the entry for a node in a dictionary that keeps insertion order. */
  function Enter(slots: seq<Slot>, name: string, active: nat): seq<Slot>
  {
    match Find(slots, name)
    case Some(i) => slots[i := Slot(name, active, 0, true)]
    case None => slots + [Slot(name, active, 0, true)]
  }

  /** `after` is `slots` with the entry for one node set. */
  ghost predicate Entered(slots: seq<Slot>, after: seq<Slot>, name: string, active: nat)
  {
    && Untouched(after) && DistinctNodes(after) && NodeNames(after) == NodeNames(slots) + {name}
    && forall s :: s in after ==> if s.name == name then s.base == active else s in slots
  }

  lemma EnterSets(slots: seq<Slot>, name: string, active: nat)
    requires DistinctNodes(slots) && Untouched(slots)
    ensures Entered(slots, Enter(slots, name, active), name, active)
  {
    var after := Enter(slots, name, active);
    var at := if Find(slots, name).Some? then Find(slots, name).value else |slots|;
    assert after[at] in after && after[at].name == name;
    forall n | n in NodeNames(slots)
      ensures n in NodeNames(after)
    {
      var i :| 0 <= i < |slots| && slots[i].name == n;
      assert after[i] in after && after[i].name == n;
    }
  }

  lemma NamesAnswered(nodes: seq<string>, clients: set<string>, replies: Replies, slots: seq<Slot>)
    requires Matches(replies, slots) && Answered(nodes, clients, replies)
    ensures forall i :: 0 <= i < |slots| ==> slots[i].name in nodes
  {
    forall i | 0 <= i < |slots|
      ensures slots[i].name in nodes
    {
      assert slots[i] in slots && slots[i].name in NodeNames(slots);
    }
  }

  lemma MatchesMore(replies: Replies, slots: seq<Slot>, after: seq<Slot>, node: string, infos: seq<ProcInfo>)
    requires Matches(replies, slots) && Entered(slots, after, node, CountActive(infos))
    ensures Matches(replies[node := infos], after)
  {
  }

  /** The body of the gathering loop, for one node. */
  method GatherNode(cluster: Cluster, target: string, node: string,
                    clients: set<string>) returns (infos: Option<seq<ProcInfo>>)
    requires cluster.Valid()
    modifies cluster
    ensures cluster.Valid() && SamePending(old(cluster.cells), cluster.cells)
    ensures infos.Some? ==>
              && node in clients
              && Seen(cluster.start, old(cluster.runs), cluster.runs, (node, target), infos.value)
    ensures cluster.tallies == old(cluster.tallies)
    ensures Later(old(cluster.runs), cluster.runs)
    ensures cluster.calls == old(cluster.calls) +
            if node in clients then multiset{Call((node, target), Asking, infos.Some?)} else multiset{}
  {
    if node !in clients {
      return None;
    }
    var r := cluster.GetGroupInfo((node, target));
    return if r.Ok? then Some(r.value) else None;
  }

  /** How often a node was asked, with and without an answer: once each time it is listed if it is configured,
      and it is in the replies exactly if it answered. */
  ghost predicate AskedNode(nodes: seq<string>, clients: set<string>, replies: Replies, node: string,
                            answered: int, failed: int)
  {
    && answered >= 0 && failed >= 0 && (node in replies <==> answered > 0)
    && answered + failed == if node in clients then multiset(nodes)[node] else 0
  }

  ghost predicate Asked(nodes: seq<string>, clients: set<string>, target: string, replies: Replies, node: string,
                        before: multiset<Call>, after: multiset<Call>)
  {
    AskedNode(nodes, clients, replies, node, NewCalls((node, target), true, before, after),
              NewCalls((node, target), false, before, after))
  }

  /** So for every node, and nothing else was called. */
  ghost predicate GatherCalls(nodes: seq<string>, clients: set<string>, target: string, replies: Replies,
                              before: multiset<Call>, after: multiset<Call>)
  {
    && (forall c: Call :: c.op != Asking || c.key.1 != target ==> after[c] == before[c])
    && (forall n {:trigger Asked(nodes, clients, target, replies, n, before, after)} ::
          Asked(nodes, clients, target, replies, n, before, after))
  }

  ghost function NewCalls(key: Key, ok: bool, before: multiset<Call>, after: multiset<Call>): int
  {
    after[Call(key, Asking, ok)] as int - before[Call(key, Asking, ok)] as int
  }

  lemma NewCallsOne(key: Key, node: string, target: string, ok: bool, placed: bool, before: multiset<Call>,
                    mid: multiset<Call>, after: multiset<Call>)
    requires after == mid + if placed then multiset{Call((node, target), Asking, ok)} else multiset{}
    ensures NewCalls(key, true, before, after) ==
            NewCalls(key, true, before, mid) + if key == (node, target) && placed && ok then 1 else 0
    ensures NewCalls(key, false, before, after) ==
            NewCalls(key, false, before, mid) + if key == (node, target) && placed && !ok then 1 else 0
  {
  }

  lemma AnsweredOne(nodes: seq<string>, node: string, clients: set<string>, replies: Replies,
                    infos: Option<seq<ProcInfo>>)
    requires Answered(nodes, clients, replies) && (node in clients || infos.None?)
    ensures var replies' := if infos.Some? then replies[node := infos.value] else replies;
            Answered(nodes + [node], clients, replies')
  {
  }

  lemma GatherCallsOne(nodes: seq<string>, node: string, clients: set<string>, target: string, replies: Replies,
                       infos: Option<seq<ProcInfo>>, before: multiset<Call>, mid: multiset<Call>, after: multiset<Call>)
    requires GatherCalls(nodes, clients, target, replies, before, mid) && (node in clients || infos.None?)
    requires after == mid +
               if node in clients then multiset{Call((node, target), Asking, infos.Some?)} else multiset{}
    ensures var replies' := if infos.Some? then replies[node := infos.value] else replies;
            GatherCalls(nodes + [node], clients, target, replies', before, after)
  {
    var replies' := if infos.Some? then replies[node := infos.value] else replies;
    var longer := nodes + [node];
    forall n
      ensures Asked(longer, clients, target, replies', n, before, after)
    {
      assert Asked(nodes, clients, target, replies, n, before, mid);
      NewCallsOne((n, target), node, target, infos.Some?, node in clients, before, mid, after);
    }
  }

  lemma NothingAsked(clients: set<string>, target: string, calls: multiset<Call>)
    ensures GatherCalls([], clients, target, map[], calls, calls)
  {
    var nodes: seq<string>, replies: Replies := [], map[];
    forall n
      ensures Asked(nodes, clients, target, replies, n, calls, calls)
    {
      assert AskedNode(nodes, clients, replies, n, 0, 0);
    }
  }

  method GatherLoads(cluster: Cluster, target: string, nodes: seq<string>, clients: set<string>)
    returns (slots: seq<Slot>, replies: Replies)
    requires cluster.Valid()
    modifies cluster
    ensures cluster.Valid() && SamePending(old(cluster.cells), cluster.cells)
    ensures Gathered(nodes, clients, replies, slots) && cluster.tallies == old(cluster.tallies)
    ensures GatherCalls(nodes, clients, target, replies, old(cluster.calls), cluster.calls)
    ensures AllReported(cluster.start, old(cluster.runs), cluster.runs, target, replies)
    ensures Later(old(cluster.runs), cluster.runs)
  {
    slots, replies := [], map[];
    NothingAsked(clients, target, cluster.calls);
    for k := 0 to |nodes|
      invariant cluster.Valid() && SamePending(old(cluster.cells), cluster.cells)
      invariant Gathered(nodes[..k], clients, replies, slots) && cluster.tallies == old(cluster.tallies)
      invariant GatherCalls(nodes[..k], clients, target, replies, old(cluster.calls), cluster.calls)
      invariant AllReported(cluster.start, old(cluster.runs), cluster.runs, target, replies)
      invariant Later(old(cluster.runs), cluster.runs)
    {
      ghost var earlier, placed := cluster.runs, cluster.calls;
      var infos := GatherNode(cluster, target, nodes[k], clients);
      assert nodes[..k + 1] == nodes[..k] + [nodes[k]];
      ListedLonger(nodes[..k], nodes[k], slots);
      AnsweredOne(nodes[..k], nodes[k], clients, replies, infos);
      GatherCallsOne(nodes[..k], nodes[k], clients, target, replies, infos, old(cluster.calls), placed, cluster.calls);
      AllReportedPut(cluster.start, old(cluster.runs), earlier, cluster.runs, target, replies, nodes[k], infos);
      if infos.Some? {
        var after := Enter(slots, nodes[k], CountActive(infos.value));
        EnterSets(slots, nodes[k], CountActive(infos.value));
        NamesAnswered(nodes[..k], clients, replies, slots);
        EnterAsListed(nodes[..k], slots, nodes[k], CountActive(infos.value));
        MatchesMore(replies, slots, after, nodes[k], infos.value);
        slots := after;
        replies := replies[nodes[k] := infos.value];
      }
    }
    assert nodes[..|nodes|] == nodes;
  }

  /** The nodes without a pending operation. */
  function Eligible(slots: seq<Slot>, blocked: set<string>): seq<Slot>
  {
    if |slots| == 0 then []
    else Eligible(slots[..|slots| - 1], blocked) +
         if slots[|slots| - 1].name in blocked then [] else [slots[|slots| - 1]]
  }

  lemma {:induction false} EligibleSlots(slots: seq<Slot>, blocked: set<string>)
    ensures |Eligible(slots, blocked)| <= |slots|
    ensures forall i :: 0 <= i < |Eligible(slots, blocked)| ==>
              Eligible(slots, blocked)[i] in slots && Eligible(slots, blocked)[i].name !in blocked
    ensures forall s :: s in slots && s.name !in blocked ==> s in Eligible(slots, blocked)
  {
    if |slots| > 0 {
      EligibleSlots(slots[..|slots| - 1], blocked);
      assert slots == slots[..|slots| - 1] + [slots[|slots| - 1]];
    }
  }

  /** They keep their order. */
  lemma {:induction false} EligibleInOrder(slots: seq<Slot>, blocked: set<string>, i: nat, j: nat)
    requires i < j < |Eligible(slots, blocked)|
    ensures exists p, q :: 0 <= p < q < |slots| && slots[p] == Eligible(slots, blocked)[i]
                           && slots[q] == Eligible(slots, blocked)[j]
  {
    var n := |slots| - 1;
    var free, front := Eligible(slots, blocked), Eligible(slots[..n], blocked);
    if j < |front| {
      EligibleInOrder(slots[..n], blocked, i, j);
      var p, q :| 0 <= p < q < n && slots[..n][p] == front[i] && slots[..n][q] == front[j];
      assert slots[p] == free[i] && slots[q] == free[j];
    } else {
      EligibleSlots(slots[..n], blocked);
      var p :| 0 <= p < n && slots[..n][p] == front[i];
      assert slots[p] == free[i] && slots[n] == free[j];
    }
  }

  lemma {:induction false} EligibleDistinct(slots: seq<Slot>, blocked: set<string>)
    requires DistinctNodes(slots)
    ensures DistinctNodes(Eligible(slots, blocked))
  {
    if |slots| > 0 {
      var front, last := slots[..|slots| - 1], slots[|slots| - 1];
      EligibleDistinct(front, blocked);
      EligibleSlots(front, blocked);
      assert forall s :: s in front ==> s.name != last.name;
    }
  }
}
