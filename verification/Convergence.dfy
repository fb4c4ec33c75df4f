/** The PM2 path over engine ticks: real timers, real reports, and the application they act on. */
module Convergence {
  import opened Names
  import opened Targets
  import opened Backends
  import opened Desired
  import opened Timers
  import opened Pm2Path
  import opened Verdicts

  /** The target, the application, what the backends said and what happened, tick by tick. */
  datatype Pilot = Pilot(states: seq<TargetState>, apps: seq<Apps>, times: seq<real>, backends: set<string>,
                         queues: seq<Queues>, reports: seq<Report>)
  {
    ghost predicate Shaped() { |states| == |apps| == |times| + 1 && |reports| == |queues| == |times| }
  }

  /** The least time that lets neither poll interval nor cooldown hold a tick up. */
  function Pause(t: Target): real { Max(t.pollInterval, Max(t.cooldownUp, t.cooldownDown)) as real }

  /** No run of the pm2 command failed. */
  ghost predicate AllSucceed(log: seq<Pm2Call>) { forall i :: 0 <= i < |log| ==> log[i].ok }

  /** Tick k is one of the engine's, the queue can be asked and has the same length as always, and PM2 answers
      whatever it is asked and does as it is told. */
  ghost predicate Undisturbed(t: Target, queueLen: nat, p: Pilot, k: nat)
    requires t.Valid() && p.Shaped() && k < |p.times|
  {
    var r := p.reports[k];
    && Ticked(t, {}, p.states[k], p.times[k], r, p.states[k + 1])
    && WentBy(p.backends, p.queues[k], t, r) && Polled(p.backends, p.queues[k], t) == Some(queueLen)
    && AllSucceed(PilotCalls(t.program, r))
    && Followed(r, t.program, p.apps[k], p.apps[k + 1])
  }

  /** A run of such ticks, a pause apart, that starts with every instance online. */
  ghost predicate IsPilotRun(t: Target, queueLen: nat, p: Pilot)
    requires t.Valid()
  {
    && t.kind.Pm2? && p.Shaped() && |p.times| > 0
    && (forall k: nat :: k < |p.times| ==> Undisturbed(t, queueLen, p, k))
    && (forall k: nat {:trigger Spacing(t, p, k)} :: 0 < k < |p.times| ==> Spacing(t, p, k))
    && Ready(t, p.states[0].clock, p.times[0]) && AppIn(p.apps[0], t.program).offline == 0
  }

  ghost predicate Spacing(t: Target, p: Pilot, k: nat)
    requires p.Shaped() && 0 < k < |p.times|
  {
    p.times[k] - p.times[k - 1] >= Pause(t)
  }

  /** The timers are not in the future, and the target is due. */
  ghost predicate Ready(t: Target, c: Clock, now: real)
  {
    c.lastUp <= now && c.lastDown <= now && now - c.lastTick >= t.pollInterval as real
  }

  /** Which cooldowns have passed at tick k. */
  function Flag(t: Target, p: Pilot, k: nat): (bool, bool)
    requires k < |p.times| && k < |p.states|
  {
    (UpAllowed(t, p.states[k].clock, p.times[k]), DownAllowed(t, p.states[k].clock, p.times[k]))
  }

  function Flags(t: Target, p: Pilot, k: nat): seq<(bool, bool)>
    requires k <= |p.times| && k <= |p.states|
  {
    seq(k, i requires 0 <= i < k => Flag(t, p, i))
  }

  lemma Succeeds(program: string, r: Report)
    requires AllSucceed(PilotCalls(program, r))
    ensures r.Pm2Skipped? ==> r.polled.None?
    ensures r.Commanded? ==> r.done || r.command.Nothing?
  {
    var log := PilotCalls(program, r);
    assert |log| > 0 ==> log[0].ok;
    assert |log| > 1 ==> log[1].ok;
  }

  /** A tick that is due: the count moves as module Pm2Path says, and no timer is ahead of it. */
  lemma OneTick(t: Target, queueLen: nat, p: Pilot, k: nat)
    requires t.Valid() && t.kind.Pm2? && p.Shaped() && k < |p.times| && Undisturbed(t, queueLen, p, k)
    requires Ready(t, p.states[k].clock, p.times[k]) && AppIn(p.apps[k], t.program).offline == 0
    ensures var (up, down) := Flag(t, p, k);
            AppIn(p.apps[k + 1], t.program) ==
            App(Next(t, Wanted(t, queueLen), AppIn(p.apps[k], t.program).online, up, down), 0)
    ensures var c := p.states[k + 1].clock;
            c.lastTick == p.times[k] && c.lastUp <= p.times[k] && c.lastDown <= p.times[k]
  {
    var s := p.states[k];
    var due := s.(clock := s.clock.(lastTick := p.times[k]));
    assert Piloted(t, due, p.times[k], p.reports[k], p.states[k + 1]);
    Succeeds(t.program, p.reports[k]);
    FollowedMovesNext(t, due, p.times[k], p.reports[k], p.states[k + 1], p.apps[k], p.apps[k + 1]);
  }

  lemma RunNext(t: Target, desired: int, n: nat, p: Pilot, k: nat)
    requires t.Valid() && 0 < k <= |p.times| && k <= |p.states|
    ensures var m, f := Run(t, desired, n, Flags(t, p, k - 1)), Flag(t, p, k - 1);
            Run(t, desired, n, Flags(t, p, k)) == Next(t, desired, m, f.0, f.1)
  {
    assert Flags(t, p, k)[..k - 1] == Flags(t, p, k - 1);
  }

  /** A pause after a tick the next one is due and no cooldown holds it up. */
  lemma PausedIsFree(t: Target, c: Clock, last: real, now: real)
    requires t.Valid() && now - last >= Pause(t) && c.lastTick == last && c.lastUp <= last && c.lastDown <= last
    ensures Ready(t, c, now) && UpAllowed(t, c, now) && DownAllowed(t, c, now)
  {
    var pause := Max(t.pollInterval, Max(t.cooldownUp, t.cooldownDown));
    assert pause as real >= t.pollInterval as real && pause as real >= t.cooldownUp as real;
    assert pause as real >= t.cooldownDown as real && pause as real >= 0.0;
  }

  /** After every tick of the run the count is what the abstract run gives, and from the second tick on no
      cooldown holds anything up. */
  lemma {:induction false} PilotRunIs(t: Target, queueLen: nat, p: Pilot, k: nat)
    requires t.Valid() && IsPilotRun(t, queueLen, p) && k <= |p.times|
    ensures AppIn(p.apps[k], t.program) ==
            App(Run(t, Wanted(t, queueLen), AppIn(p.apps[0], t.program).online, Flags(t, p, k)), 0)
    ensures k < |p.times| ==> Ready(t, p.states[k].clock, p.times[k])
    ensures 0 < k < |p.times| ==> Flag(t, p, k) == (true, true)
  {
    if k == 0 {
      assert Flags(t, p, 0) == [];
    } else {
      PilotRunIs(t, queueLen, p, k - 1);
      PilotTick(t, queueLen, p, k);
    }
  }

  lemma PilotTick(t: Target, queueLen: nat, p: Pilot, k: nat)
    requires t.Valid() && IsPilotRun(t, queueLen, p) && 0 < k <= |p.times|
    requires Ready(t, p.states[k - 1].clock, p.times[k - 1])
    requires AppIn(p.apps[k - 1], t.program) ==
             App(Run(t, Wanted(t, queueLen), AppIn(p.apps[0], t.program).online, Flags(t, p, k - 1)), 0)
    ensures AppIn(p.apps[k], t.program) ==
            App(Run(t, Wanted(t, queueLen), AppIn(p.apps[0], t.program).online, Flags(t, p, k)), 0)
    ensures k < |p.times| ==> Ready(t, p.states[k].clock, p.times[k]) && Flag(t, p, k) == (true, true)
  {
    OneTick(t, queueLen, p, k - 1);
    RunNext(t, Wanted(t, queueLen), AppIn(p.apps[0], t.program).online, p, k);
    if k < |p.times| {
      assert Spacing(t, p, k);
      PausedIsFree(t, p.states[k].clock, p.times[k - 1], p.times[k]);
    }
  }

  lemma {:induction false} AlmostAllFree(t: Target, queueLen: nat, p: Pilot, k: nat)
    requires t.Valid() && IsPilotRun(t, queueLen, p) && 0 < k <= |p.times|
    ensures FreeTicks(Flags(t, p, k)) >= k - 1
  {
    assert Flags(t, p, k)[..k - 1] == Flags(t, p, k - 1);
    if k > 1 {
      AlmostAllFree(t, queueLen, p, k - 1);
      PilotRunIs(t, queueLen, p, k - 1);
      assert Flags(t, p, k)[k - 1] == (true, true);
    }
  }

  /** Within the limits, less than one step too many, and less than one step too few. */
  predicate NearEnough(t: Target, queueLen: nat, n: int)
  {
    && t.minWorkers <= n <= t.maxWorkers
    && (n - t.scaleUpStep < t.minWorkers || (n - t.scaleUpStep) * t.tasksPerWorker < queueLen)
    && (n + t.scaleDownStep > t.maxWorkers || (n + t.scaleDownStep - 1) * t.tasksPerWorker >= queueLen)
  }

  lemma BandIsNear(t: Target, queueLen: nat, n: int)
    requires t.Valid()
    ensures InBand(t, Wanted(t, queueLen), n) <==> NearEnough(t, queueLen, n)
  {
    WantedExactly(t, queueLen, Wanted(t, queueLen));
    WantedBeyond(t, queueLen, n - t.scaleUpStep);
    WantedBeyond(t, queueLen, n + t.scaleDownStep);
  }

  /** With a constant queue, every instance online and no errors, ticks a pause apart bring the count to
      within a step of what the queue calls for in at most one tick more than it was away, and it stays there. */
  lemma PilotConverges(t: Target, queueLen: nat, p: Pilot, k: nat, d: int)
    requires t.Valid() && IsPilotRun(t, queueLen, p) && k <= |p.times|
    requires IsWanted(t, queueLen, d) && k > Distance(AppIn(p.apps[0], t.program).online, d)
    ensures NearEnough(t, queueLen, AppIn(p.apps[k], t.program).online)
  {
    var n := AppIn(p.apps[0], t.program).online;
    WantedExactly(t, queueLen, d);
    PilotRunIs(t, queueLen, p, k);
    AlmostAllFree(t, queueLen, p, k);
    Converges(t, d, n, Flags(t, p, k));
    BandIsNear(t, queueLen, AppIn(p.apps[k], t.program).online);
  }
}
