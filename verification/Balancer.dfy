/** How one tick spreads workers over nodes: least-loaded first when adding, most-loaded first when
    removing, one worker per call, a failing node dropping out. */
module Balancer {
  import opened Names

  // ----- Loads as plain sequences -----

  function Sum(s: seq<int>): int { if |s| == 0 then 0 else Sum(s[..|s| - 1]) + s[|s| - 1] }

  function Sq(x: int): int { x * x }

  function SumSq(s: seq<int>): int { if |s| == 0 then 0 else SumSq(s[..|s| - 1]) + Sq(s[|s| - 1]) }

  ghost predicate AtMost(s: seq<int>, m: int) { forall i :: 0 <= i < |s| ==> s[i] <= m }

  ghost predicate AtLeast(s: seq<int>, m: int) { forall i :: 0 <= i < |s| ==> s[i] >= m }

  /** f spreads workers at least as evenly as y: in squares, in its maximum and in its minimum. */
  ghost predicate NoWorse(f: seq<int>, y: seq<int>)
  {
    && SumSq(f) <= SumSq(y)
    && (forall m :: AtMost(y, m) ==> AtMost(f, m))
    && (forall m :: AtLeast(y, m) ==> AtLeast(f, m))
  }

  /** Another way of adding the same number of workers to the same nodes. */
  ghost predicate SameAddition(base: seq<int>, f: seq<int>, y: seq<int>)
  {
    |base| == |f| == |y| && Sum(f) == Sum(y)
    && forall i :: 0 <= i < |base| ==> base[i] <= f[i] && base[i] <= y[i]
  }

  /** Whoever received a worker is at most one above everyone else. */
  ghost predicate Balanced(base: seq<int>, f: seq<int>)
  {
    |base| == |f| && forall i, j :: 0 <= i < |f| && 0 <= j < |f| && f[i] > base[i] ==> f[i] <= f[j] + 1
  }

  lemma {:induction false} SumStrict(f: seq<int>, y: seq<int>)
    requires |f| == |y| && forall i :: 0 <= i < |f| ==> f[i] <= y[i]
    ensures Sum(f) <= Sum(y)
    ensures Sum(f) == Sum(y) ==> f == y
  {
    if |f| > 0 {
      var f', y' := f[..|f| - 1], y[..|y| - 1];
      SumStrict(f', y');
      assert f == f' + [f[|f| - 1]] && y == y' + [y[|y| - 1]];
    }
  }

  lemma AddProducts(p: int, q: int, k: int, a: int, b: int)
    requires p >= k * a && q >= k * b
    ensures p + q >= k * (a + b)
  {
    assert k * (a + b) == k * a + k * b;
  }

  lemma {:induction false} TangentSum(f: seq<int>, y: seq<int>, k: int)
    requires |f| == |y| && forall i :: 0 <= i < |f| ==> AboveTangent(f[i], y[i], k)
    ensures SumSq(y) - SumSq(f) >= k * (Sum(y) - Sum(f))
  {
    if |f| > 0 {
      var n := |f| - 1;
      TangentSum(f[..n], y[..n], k);
      AddProducts(SumSq(y[..n]) - SumSq(f[..n]), Sq(y[n]) - Sq(f[n]), k, Sum(y[..n]) - Sum(f[..n]), y[n] - f[n]);
      assert Sum(y) - Sum(f) == (Sum(y[..n]) - Sum(f[..n])) + (y[n] - f[n]);
    }
  }

  /** The square lies above the line of slope k through f. */
  ghost predicate AboveTangent(f: int, y: int, k: int)
  {
    Sq(y) - Sq(f) >= k * (y - f)
  }

  lemma ProductNonnegative(a: int, b: int)
    requires a >= 0 && b >= 0
    ensures a * b >= 0 && (-a) * (-b) >= 0
  {
  }

  lemma SquareDifference(f: int, y: int, k: int)
    ensures Sq(y) - Sq(f) - k * (y - f) == (y - f) * (y + f - k)
  {
  }

  /** The tangent of the square at m + 1/2 lies below it on the integers on either side. */
  lemma Tangent(f: int, y: int, m: int)
    requires (y > f && f >= m) || (y < f && f <= m + 1) || y == f
    ensures AboveTangent(f, y, 2 * m + 1)
  {
    SquareDifference(f, y, 2 * m + 1);
    if y >= f {
      ProductNonnegative(y - f, if y == f then 0 else y + f - 2 * m - 1);
    } else {
      ProductNonnegative(f - y, 2 * m + 1 - y - f);
    }
  }

  lemma {:induction false} LeastIndex(f: seq<int>) returns (j: nat)
    requires |f| > 0
    ensures j < |f| && forall i :: 0 <= i < |f| ==> f[j] <= f[i]
  {
    j := |f| - 1;
    if |f| > 1 {
      var k := LeastIndex(f[..|f| - 1]);
      assert forall i :: 0 <= i < |f| - 1 ==> f[..|f| - 1][i] == f[i];
      if f[k] < f[j] { j := k; }
    }
  }

  /** A balanced outcome minimises the sum of squares, minimises the maximum, and maximises the
      minimum, over every other way of adding as many workers. */
  lemma BalancedIsOptimal(base: seq<int>, f: seq<int>, y: seq<int>)
    requires Balanced(base, f) && SameAddition(base, f, y)
    ensures NoWorse(f, y)
  {
    if |f| > 0 {
      BalancedSquares(base, f, y);
    }
    forall m | AtMost(y, m) ensures AtMost(f, m) {
      BalancedMaximum(base, f, y, m);
    }
    forall m | AtLeast(y, m) ensures AtLeast(f, m) {
      BalancedMinimum(base, f, y, m);
    }
  }

  lemma BalancedSquares(base: seq<int>, f: seq<int>, y: seq<int>)
    requires |f| > 0 && Balanced(base, f) && SameAddition(base, f, y)
    ensures SumSq(f) <= SumSq(y)
  {
    var j := LeastIndex(f);
    forall i | 0 <= i < |f|
      ensures AboveTangent(f[i], y[i], 2 * f[j] + 1)
    {
      Tangent(f[i], y[i], f[j]);
    }
    TangentSum(f, y, 2 * f[j] + 1);
    assert (2 * f[j] + 1) * (Sum(y) - Sum(f)) == 0;
  }

  lemma BalancedMaximum(base: seq<int>, f: seq<int>, y: seq<int>, m: int)
    requires Balanced(base, f) && SameAddition(base, f, y) && AtMost(y, m)
    ensures AtMost(f, m)
  {
    if i :| 0 <= i < |f| && f[i] > m {
      assert f[i] > base[i];
      SumStrict(y, f);
    }
  }

  lemma BalancedMinimum(base: seq<int>, f: seq<int>, y: seq<int>, m: int)
    requires Balanced(base, f) && SameAddition(base, f, y) && AtLeast(y, m)
    ensures AtLeast(f, m)
  {
    if j :| 0 <= j < |f| && f[j] < m {
      assert forall i :: 0 <= i < |f| && f[i] > base[i] ==> f[i] <= f[j] + 1;
      SumStrict(f, y);
    }
  }

  lemma {:induction false} SumUpdate(s: seq<int>, i: nat, v: int)
    requires i < |s|
    ensures Sum(s[i := v]) == Sum(s) - s[i] + v
    ensures SumSq(s[i := v]) == SumSq(s) - Sq(s[i]) + Sq(v)
  {
    var front := s[..|s| - 1];
    if i < |s| - 1 {
      SumUpdate(front, i, v);
      assert s[i := v][..|s| - 1] == front[i := v];
    } else {
      assert s[i := v][..|s| - 1] == front;
    }
  }

  /** Moving one worker from a node to one that has two fewer. */
  lemma MoveOne(base: seq<int>, f: seq<int>, i: nat, j: nat)
    requires |base| == |f| && (forall k :: 0 <= k < |f| ==> base[k] <= f[k])
    requires i < |f| && j < |f| && f[i] > base[i] && f[i] > f[j] + 1
    ensures var y := f[i := f[i] - 1][j := f[j] + 1]; SameAddition(base, f, y) && SumSq(y) < SumSq(f)
  {
    SumUpdate(f, i, f[i] - 1);
    SumUpdate(f[i := f[i] - 1], j, f[j] + 1);
    assert Sq(f[i] - 1) == Sq(f[i]) - 2 * f[i] + 1;
    assert Sq(f[j] + 1) == Sq(f[j]) + 2 * f[j] + 1;
  }

  /** And only balanced outcomes do: from any other, moving one worker does better. */
  lemma OptimalIsBalanced(base: seq<int>, f: seq<int>)
    requires |base| == |f| && forall i :: 0 <= i < |f| ==> base[i] <= f[i]
    requires forall y :: SameAddition(base, f, y) ==> SumSq(f) <= SumSq(y)
    ensures Balanced(base, f)
  {
    forall i: nat, j: nat | i < |f| && j < |f| && f[i] > base[i]
      ensures f[i] <= f[j] + 1
    {
      if f[i] > f[j] + 1 { MoveOne(base, f, i, j); }
    }
  }

  // ----- The state of a distribution loop -----

  /** One entry of `active_counts`: the count gathered for the node, the calls it has answered, and
      whether it is still a candidate (an entry that is not has been deleted from the dictionary). */
  datatype Slot = Slot(name: string, base: nat, given: nat, alive: bool) {
    function Raised(): int { base + given }
    function Lowered(): int { base - given }
  }

  function Raise(slots: seq<Slot>): seq<int> { seq(|slots|, i requires 0 <= i < |slots| => slots[i].Raised()) }

  function Lower(slots: seq<Slot>): seq<int> { seq(|slots|, i requires 0 <= i < |slots| => slots[i].Lowered()) }

  function Bases(slots: seq<Slot>): seq<int> { seq(|slots|, i requires 0 <= i < |slots| => slots[i].base) }

  function Given(slots: seq<Slot>): nat
  {
    if |slots| == 0 then 0 else Given(slots[..|slots| - 1]) + slots[|slots| - 1].given
  }

  function Dead(slots: seq<Slot>): (d: nat)
    ensures d <= |slots|
  {
    if |slots| == 0 then 0 else Dead(slots[..|slots| - 1]) + if slots[|slots| - 1].alive then 0 else 1
  }

  /** Every call made so far: one per answered worker, one per node that failed. */
  function Calls(slots: seq<Slot>): nat { Given(slots) + Dead(slots) }

  /** The first candidate with the least count. */
  function Least(slots: seq<Slot>): (r: Option<nat>)
    ensures r.None? <==> forall i :: 0 <= i < |slots| ==> !slots[i].alive
    ensures r.Some? ==> r.value < |slots| && slots[r.value].alive
    ensures r.Some? ==> forall i :: 0 <= i < |slots| && slots[i].alive ==>
              slots[r.value].Raised() <= slots[i].Raised() && (i < r.value ==>
                  slots[r.value].Raised() < slots[i].Raised())
  {
    if |slots| == 0 then None
    else
      var n := |slots| - 1;
      match Least(slots[..n])
      case None => if slots[n].alive then Some(n) else None
      case Some(k) => if slots[n].alive && slots[n].Raised() < slots[k].Raised() then Some(n) else Some(k)
  }

  /** The first candidate with the greatest count. */
  function Most(slots: seq<Slot>): (r: Option<nat>)
    ensures r.None? <==> forall i :: 0 <= i < |slots| ==> !slots[i].alive
    ensures r.Some? ==> r.value < |slots| && slots[r.value].alive
    ensures r.Some? ==> forall i :: 0 <= i < |slots| && slots[i].alive ==>
              slots[r.value].Lowered() >= slots[i].Lowered() && (i < r.value ==>
                  slots[r.value].Lowered() > slots[i].Lowered())
  {
    if |slots| == 0 then None
    else
      var n := |slots| - 1;
      match Most(slots[..n])
      case None => if slots[n].alive then Some(n) else None
      case Some(k) => if slots[n].alive && slots[n].Lowered() > slots[k].Lowered() then Some(n) else Some(k)
  }

  /** Any node that received a worker ends at most one above every surviving candidate, and no higher than one
      listed before it. */
  ghost predicate FairUp(slots: seq<Slot>)
  {
    forall i, j :: 0 <= i < |slots| && 0 <= j < |slots| && slots[i].given > 0 && slots[j].alive ==>
      slots[i].Raised() <= slots[j].Raised() + if j < i then 0 else 1
  }

  /** Any node asked to stop a worker ends at most one below every surviving candidate, and no lower than one
      listed before it; none is asked for more than it was seen to have. */
  ghost predicate FairDown(slots: seq<Slot>)
  {
    && (forall i :: 0 <= i < |slots| ==> slots[i].given <= slots[i].base)
    && (forall i, j :: 0 <= i < |slots| && 0 <= j < |slots| && slots[i].given > 0 && slots[j].alive ==>
          slots[i].Lowered() + (if j < i then 0 else 1) >= slots[j].Lowered())
  }

  lemma {:induction false} SlotUpdate(slots: seq<Slot>, i: nat, s: Slot)
    requires i < |slots|
    ensures Given(slots[i := s]) == Given(slots) - slots[i].given + s.given
    ensures Dead(slots[i := s]) == Dead(slots) - (if slots[i].alive then 0 else 1) + (if s.alive then 0 else 1)
  {
    var n := |slots| - 1;
    if i < n {
      SlotUpdate(slots[..n], i, s);
      assert slots[i := s][..n] == slots[..n][i := s];
    } else {
      assert slots[i := s][..n] == slots[..n];
    }
  }

  lemma {:induction false} AllDead(slots: seq<Slot>)
    ensures Dead(slots) == |slots| <==> forall i :: 0 <= i < |slots| ==> !slots[i].alive
    ensures Dead(slots) == 0 <==> forall i :: 0 <= i < |slots| ==> slots[i].alive
  {
    if |slots| > 0 {
      var n := |slots| - 1;
      AllDead(slots[..n]);
      assert forall i :: 0 <= i < n ==> slots[..n][i] == slots[i];
    }
  }

  lemma {:induction false} SumOfSlots(slots: seq<Slot>)
    ensures Sum(Raise(slots)) == Sum(Bases(slots)) + Given(slots)
    ensures Sum(Lower(slots)) == Sum(Bases(slots)) - Given(slots)
  {
    if |slots| > 0 {
      var n := |slots| - 1;
      SumOfSlots(slots[..n]);
      assert Raise(slots)[..n] == Raise(slots[..n]);
      assert Lower(slots)[..n] == Lower(slots[..n]);
      assert Bases(slots)[..n] == Bases(slots[..n]);
    }
  }

  /** The same nodes with the same counts, none of them failed. */
  ghost predicate SameStart(a: seq<Slot>, b: seq<Slot>)
  {
    && |a| == |b| && Dead(a) == 0 && Dead(b) == 0
    && forall i :: 0 <= i < |a| ==> a[i].name == b[i].name && a[i].base == b[i].base
  }

  lemma {:induction false} LessGiven(a: seq<Slot>, b: seq<Slot>)
    requires |a| == |b| && forall i :: 0 <= i < |a| ==> a[i].given <= b[i].given
    ensures Given(a) <= Given(b)
    ensures (exists i :: 0 <= i < |a| && a[i].given < b[i].given) ==> Given(a) < Given(b)
  {
    if |a| > 0 {
      var n := |a| - 1;
      LessGiven(a[..n], b[..n]);
      if i :| 0 <= i < |a| && a[i].given < b[i].given {
        assert i < n ==> a[..n][i].given < b[..n][i].given;
      }
    }
  }

  /** Of two different ways to give as many, each gives some node more than the other does. */
  lemma GivenElsewhere(a: seq<Slot>, b: seq<Slot>, i: nat)
    requires |a| == |b| && Given(a) == Given(b) && i < |a| && a[i].given < b[i].given
    ensures exists j :: 0 <= j < |a| && a[j].given > b[j].given
  {
    if forall j :: 0 <= j < |a| ==> a[j].given <= b[j].given {
      LessGiven(a, b);
    }
  }

  lemma NoSwapUp(a: seq<Slot>, b: seq<Slot>, i: nat, j: nat)
    requires SameStart(a, b) && FairUp(a) && FairUp(b) && i < |a| && j < |a|
    ensures !(a[i].given < b[i].given && a[j].given > b[j].given)
  {
    AllDead(a);
    AllDead(b);
    assert a[i].alive && b[j].alive;
  }

  lemma NoSwapDown(a: seq<Slot>, b: seq<Slot>, i: nat, j: nat)
    requires SameStart(a, b) && FairDown(a) && FairDown(b) && i < |a| && j < |a|
    ensures !(a[i].given < b[i].given && a[j].given > b[j].given)
  {
    AllDead(a);
    AllDead(b);
    assert a[i].alive && b[j].alive;
  }

  lemma NoneMore(a: seq<Slot>, b: seq<Slot>, i: nat)
    requires SameStart(a, b) && Given(a) == Given(b) && i < |a|
    requires (FairUp(a) && FairUp(b)) || (FairDown(a) && FairDown(b))
    ensures a[i].given >= b[i].given
  {
    if a[i].given < b[i].given {
      GivenElsewhere(a, b, i);
      var j: nat :| j < |a| && a[j].given > b[j].given;
      if FairUp(a) && FairUp(b) { NoSwapUp(a, b, i, j); } else { NoSwapDown(a, b, i, j); }
    }
  }

  /** So when no call fails there is only one fair outcome: counts, amount and order decide who gets what. */
  lemma FairIsUnique(a: seq<Slot>, b: seq<Slot>)
    requires SameStart(a, b) && Given(a) == Given(b)
    requires (FairUp(a) && FairUp(b)) || (FairDown(a) && FairDown(b))
    ensures a == b
  {
    AllDead(a);
    AllDead(b);
    forall i | 0 <= i < |a|
      ensures a[i] == b[i]
    {
      NoneMore(a, b, i);
      NoneMore(b, a, i);
    }
  }

  /** Greedy scale-up is optimal: when no call failed, every other way of adding as many workers to
      these nodes is no better. */
  lemma GreedyUpOptimal(slots: seq<Slot>, y: seq<int>)
    requires FairUp(slots) && Dead(slots) == 0
    requires |y| == |slots| && Sum(y) == Sum(Bases(slots)) + Given(slots)
    requires forall i :: 0 <= i < |y| ==> slots[i].base <= y[i]
    ensures NoWorse(Raise(slots), y)
  {
    AllDead(slots);
    SumOfSlots(slots);
    assert Balanced(Bases(slots), Raise(slots));
    BalancedIsOptimal(Bases(slots), Raise(slots), y);
  }

  function Negated(s: seq<int>): seq<int> { seq(|s|, i requires 0 <= i < |s| => -s[i]) }

  lemma {:induction false} NegatedSums(s: seq<int>)
    ensures Sum(Negated(s)) == -Sum(s) && SumSq(Negated(s)) == SumSq(s)
  {
    if |s| > 0 {
      NegatedSums(s[..|s| - 1]);
      assert Negated(s)[..|s| - 1] == Negated(s[..|s| - 1]);
      assert Sq(-s[|s| - 1]) == Sq(s[|s| - 1]);
    }
  }

  lemma NegatedNoWorse(f: seq<int>, y: seq<int>)
    requires NoWorse(Negated(f), Negated(y))
    ensures NoWorse(f, y)
  {
    NegatedSums(f);
    NegatedSums(y);
    forall m | AtMost(y, m) ensures AtMost(f, m) {
      assert AtLeast(Negated(y), -m);
      assert AtLeast(Negated(f), -m);
      assert forall i :: 0 <= i < |f| ==> Negated(f)[i] == -f[i];
    }
    forall m | AtLeast(y, m) ensures AtLeast(f, m) {
      assert AtMost(Negated(y), -m);
      assert AtMost(Negated(f), -m);
      assert forall i :: 0 <= i < |f| ==> Negated(f)[i] == -f[i];
    }
  }

  /** Greedy scale-down is optimal on the counts the engine records: the mirror image. */
  lemma GreedyDownOptimal(slots: seq<Slot>, y: seq<int>)
    requires FairDown(slots) && Dead(slots) == 0
    requires |y| == |slots| && Sum(y) == Sum(Bases(slots)) - Given(slots)
    requires forall i :: 0 <= i < |y| ==> y[i] <= slots[i].base
    ensures NoWorse(Lower(slots), y)
  {
    var base, f := Bases(slots), Lower(slots);
    AllDead(slots);
    SumOfSlots(slots);
    NegatedSums(f);
    NegatedSums(y);
    assert Balanced(Negated(base), Negated(f));
    BalancedIsOptimal(Negated(base), Negated(f), Negated(y));
    NegatedNoWorse(f, y);
  }
}
