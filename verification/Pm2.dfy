/** The PM2 path: `pm2 scale` takes effect at once, so a target is just a count that each tick may move
    towards the desired one. */
module Pm2Path {
  import opened Names
  import opened Targets
  import opened Desired

  /** What a tick asks of PM2. */
  datatype Command = Nothing | ScaleBy(added: nat) | ScaleTo(count: nat)

  function Execute(c: Command, online: nat): nat
  {
    match c
    case Nothing => online
    case ScaleBy(k) => online + k
    case ScaleTo(n) => n
  }

  /** The decision for a queue of known length; the flags say which cooldowns have passed. */
  function Decide(t: Target, desired: int, active: nat, mayUp: bool, mayDown: bool): Command
    requires t.Valid()
  {
    if desired > active then
      var count := Min(t.scaleUpStep, t.maxWorkers - active);
      if mayUp && count > 0 then ScaleBy(count) else Nothing
    else if desired < active then
      var count := Min(t.scaleDownStep, active - t.minWorkers);
      if mayDown && count > 0 then ScaleTo(active - count) else Nothing
    else Nothing
  }

  ghost predicate Reachable(t: Target, desired: int)
  {
    t.Valid() && t.minWorkers <= desired <= t.maxWorkers
  }

  function Next(t: Target, desired: int, active: nat, mayUp: bool, mayDown: bool): nat
    requires t.Valid()
  {
    Execute(Decide(t, desired, active, mayUp, mayDown), active)
  }

  /** Within one step of the desired count on either side, and within the limits. */
  ghost predicate InBand(t: Target, desired: int, n: int)
  {
    && Max(t.minWorkers, desired - (t.scaleDownStep - 1)) <= n
    && n <= Min(t.maxWorkers, desired + (t.scaleUpStep - 1))
  }

  /** The band is never left, and the limits are never crossed from inside. */
  lemma BandIsInvariant(t: Target, desired: int, n: nat, mayUp: bool, mayDown: bool)
    requires Reachable(t, desired)
    ensures InBand(t, desired, n) ==> InBand(t, desired, Next(t, desired, n, mayUp, mayDown))
    ensures t.minWorkers <= n <= t.maxWorkers ==>
              t.minWorkers <= Next(t, desired, n, mayUp, mayDown) <= t.maxWorkers
  {
  }

  /** From any count outside the band, a tick whose cooldowns have passed either lands in the band or
      gets strictly closer to the desired count without passing it. */
  lemma BandIsApproached(t: Target, desired: int, n: nat)
    requires Reachable(t, desired) && !InBand(t, desired, n)
    ensures var m := Next(t, desired, n, true, true);
            InBand(t, desired, m) || (Distance(m, desired) < Distance(n, desired) && (m < desired <==> n < desired))
  {
  }

  /** How far an acting tick moves the count. */
  function Stride(t: Target, desired: int, n: nat): int
  {
    if n < desired then Min(t.scaleUpStep, t.maxWorkers - n) else Min(t.scaleDownStep, n - t.minWorkers)
  }

  /** Getting closer is not automatic: an acting tick ends up closer to the desired count exactly when its
      stride is less than twice the distance. */
  lemma CloserExactly(t: Target, desired: int, n: nat)
    requires Reachable(t, desired) && n != desired
    ensures Distance(Next(t, desired, n, true, true), desired) < Distance(n, desired) <==>
              Stride(t, desired, n) < 2 * Distance(n, desired)
  {
  }

  /** With a step of 4, a count of 3 and a desired count of 4, the tick goes to 7, three away instead of one. */
  lemma OvershootMovesAway(t: Target)
    requires t.Valid() && t.minWorkers == 0 && t.maxWorkers == 10 && t.scaleUpStep == 4
    ensures Next(t, 4, 3, true, true) == 7 && Distance(7, 4) > Distance(3, 4)
  {
  }

  /** A run of ticks under a constant queue, each with its cooldown flags. */
  function Run(t: Target, desired: int, n: nat, flags: seq<(bool, bool)>): nat
    requires t.Valid()
  {
    if |flags| == 0 then n
    else Next(t, desired, Run(t, desired, n, flags[..|flags| - 1]), flags[|flags| - 1].0, flags[|flags| - 1].1)
  }

  function FreeTicks(flags: seq<(bool, bool)>): nat
  {
    if |flags| == 0 then 0
    else FreeTicks(flags[..|flags| - 1]) + if flags[|flags| - 1] == (true, true) then 1 else 0
  }

  /** A tick never moves the count away from the band: a blocked one leaves it, or moves it like a free one. */
  lemma BlockedTick(t: Target, desired: int, n: nat, mayUp: bool, mayDown: bool)
    requires Reachable(t, desired)
    ensures Next(t, desired, n, mayUp, mayDown) == n
            || Next(t, desired, n, mayUp, mayDown) == Next(t, desired, n, true, true)
  {
  }

  /** With a constant queue, every instance online and no errors, the count enters the band after at
      most |active - desired| ticks that are not held up by a cooldown, and stays there. */
  lemma {:induction false} Converges(t: Target, desired: int, n: nat, flags: seq<(bool, bool)>)
    requires Reachable(t, desired)
    ensures var m := Run(t, desired, n, flags);
            InBand(t, desired, m) || Distance(m, desired) + FreeTicks(flags) <= Distance(n, desired)
    ensures FreeTicks(flags) >= Distance(n, desired) ==> InBand(t, desired, Run(t, desired, n, flags))
  {
    if |flags| > 0 {
      var front, last := flags[..|flags| - 1], flags[|flags| - 1];
      Converges(t, desired, n, front);
      var m := Run(t, desired, n, front);
      BandIsInvariant(t, desired, m, last.0, last.1);
      BlockedTick(t, desired, m, last.0, last.1);
      if !InBand(t, desired, m) {
        BandIsApproached(t, desired, m);
      }
    }
  }

  /** With both steps 1 the band is the desired count itself. */
  lemma ConvergesToDesired(t: Target, desired: int, n: nat, flags: seq<(bool, bool)>)
    requires Reachable(t, desired) && t.scaleUpStep == 1 && t.scaleDownStep == 1
    requires FreeTicks(flags) >= Distance(n, desired)
    ensures Run(t, desired, n, flags) == desired
  {
    Converges(t, desired, n, flags);
  }

  // ----- PM2 itself -----

  /** The instances of an application: those that count as active, and the others (stopped, errored). */
  datatype App = App(online: nat, offline: nat)

  /** `pm2 scale <name> <n>` leaves n instances; which ones go is up to PM2. */
  ghost predicate ScaledTo(a: App, n: nat, b: App)
  {
    && b.online + b.offline == n
    && if a.online + a.offline <= n then b.offline == a.offline else b.online <= a.online && b.offline <= a.offline
  }

  ghost predicate Obeyed(c: Command, a: App, b: App)
  {
    match c
    case Nothing => b == a
    case ScaleBy(k) => b == a.(online := a.online + k)
    case ScaleTo(n) => ScaledTo(a, n, b)
  }

  /** With every instance online the count is what the command says. */
  lemma AllOnlineExecutes(c: Command, a: App, b: App)
    requires Obeyed(c, a, b) && a.offline == 0 && (c.ScaleTo? ==> c.count <= a.online)
    ensures b == App(Execute(c, a.online), 0)
  {
  }

  /** When some are not, the count the engine computes from the active ones is too low for the application as
      a whole: scaling down is sure to leave the active count it means exactly if every instance is online,
      or none is to be left. */
  lemma ScaleDownIsSureExactly(a: App, n: nat)
    requires n < a.online
    ensures (forall b :: ScaledTo(a, n, b) ==> b.online == n) <==> a.offline == 0 || n == 0
  {
    if a.offline > 0 && n > 0 {
      var left := Min(a.offline, n);
      assert ScaledTo(a, n, App(n - left, left));
    }
  }

  /** Three active instances, one stopped, two wanted: one may be left active. */
  lemma ScaleDownMayLeaveFewer()
    ensures ScaledTo(App(3, 1), 2, App(1, 1))
  {
  }

  type Apps = map<string, App>

  /** An application PM2 does not know has no instances. */
  function AppIn(apps: Apps, program: string): App { if program in apps then apps[program] else App(0, 0) }

  ghost predicate OtherAppsKept(apps: Apps, apps': Apps, program: string)
  {
    forall q {:trigger AppIn(apps', q)} :: q != program ==> AppIn(apps', q) == AppIn(apps, q)
  }

  /** One run of the pm2 command, and whether it succeeded. */
  datatype Pm2Call = Listed(program: string, ok: bool) | Told(program: string, command: Command, ok: bool)

  class Pm2 {
    var apps: Apps
    ghost var log: seq<Pm2Call>   // every run of it so far

    constructor (apps: Apps)
      ensures this.apps == apps && log == []
    {
      this.apps, log := apps, [];
    }

    /** `pm2 jlist`, and how many of the program's instances are active. */
    method Info(program: string) returns (r: Option<nat>)
      modifies this`log
      ensures r.Some? ==> r.value == AppIn(apps, program).online
      ensures log == old(log) + [Listed(program, r.Some?)]
    {
      var answered: bool := *;
      log := log + [Listed(program, answered)];
      return if answered then Some(AppIn(apps, program).online) else None;
    }

    /** `pm2 scale`; when it reports an error it may have taken effect or not. */
    method Scale(program: string, c: Command) returns (done: bool)
      modifies this
      ensures log == old(log) + [Told(program, c, done)]
      ensures OtherAppsKept(old(apps), apps, program)
      ensures Obeyed(c, AppIn(old(apps), program), AppIn(apps, program)) || (!done && apps == old(apps))
    {
      var reached: bool := *;
      if program !in apps || !reached {
        log := log + [Told(program, c, false)];
        return false;
      }
      var a := apps[program];
      match c {
        case Nothing =>
        case ScaleBy(k) => apps := apps[program := a.(online := a.online + k)];
        case ScaleTo(n) =>
          var total := a.online + a.offline;
          if total <= n {
            apps := apps[program := a.(online := a.online + n - total)];
          } else {
            assert Min(a.offline, n) <= n <= Min(a.offline, n) + a.online;
            var left: nat :| left <= a.offline && left <= n <= left + a.online;
            apps := apps[program := App(n - left, left)];
          }
      }
      var answered: bool := *;
      log := log + [Told(program, c, answered)];
      return answered;
    }
  }
}
