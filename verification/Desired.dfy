/** How many workers a queue calls for: `ceil(queue_len / tasks_per_worker)` clamped to the target's
    limits. The division is Python's true division of integers, which rounds the exact quotient to a
    binary64 number (IEEE 754-2019, section 4.3.1), so whether `ceil` sees the right side of an integer
    is a question about rounding. */
module Desired {
  import opened Names

  /** The ceiling of a / b, counted rather than divided. */
  function CeilDiv(a: nat, b: nat): nat
    requires b >= 1
    decreases a
  {
    if a == 0 then 0 else if a <= b then 1 else 1 + CeilDiv(a - b, b)
  }

  lemma {:induction false} CeilDivBounds(a: nat, b: nat)
    requires b >= 1
    ensures CeilDiv(a, b) * b >= a
    ensures CeilDiv(a, b) > 0 ==> (CeilDiv(a, b) - 1) * b < a
    decreases a
  {
    if a > b {
      CeilDivBounds(a - b, b);
      var c := CeilDiv(a - b, b);
      assert CeilDiv(a, b) * b == c * b + b && (CeilDiv(a, b) - 1) * b == (c - 1) * b + b;
    }
  }

  /** The least number of workers that covers the queue. */
  lemma CeilDivIsLeast(a: nat, b: nat)
    requires b >= 1
    ensures CeilDiv(a, b) * b >= a
    ensures CeilDiv(a, b) > 0 ==> (CeilDiv(a, b) - 1) * b < a
    ensures forall w: nat :: w * b >= a ==> w >= CeilDiv(a, b)
  {
    var c := CeilDiv(a, b);
    CeilDivBounds(a, b);
    forall w: nat | w * b >= a
      ensures w >= c
    {
      if w < c { Monotone(w, c - 1, b); }
    }
  }

  lemma Monotone(x: int, y: int, b: nat)
    requires x <= y
    ensures x * b <= y * b
  {
    assert (y - x) * b >= 0;
  }

  function Clamp(lo: int, hi: int, w: int): int { Max(lo, Min(hi, w)) }

  function Workers(lo: nat, hi: nat, tasksPerWorker: nat, queueLen: nat): int
    requires tasksPerWorker >= 1
  {
    Clamp(lo, hi, CeilDiv(queueLen, tasksPerWorker))
  }

  function Distance(a: int, b: int): nat { if a < b then b - a else a - b }

  /** The desired count lies in [min, max] and is the one there closest to the least covering count; it
      covers the queue unless max forbids it, and one fewer would not unless min forbids that. */
  lemma WorkersMeaning(lo: nat, hi: nat, b: nat, queueLen: nat, x: int)
    requires b >= 1 && lo <= hi && lo <= x <= hi
    ensures var d := Workers(lo, hi, b, queueLen);
            && lo <= d <= hi
            && Distance(d, CeilDiv(queueLen, b)) <= Distance(x, CeilDiv(queueLen, b))
            && (d * b >= queueLen || d == hi)
            && ((d - 1) * b < queueLen || d == lo)
  {
    var d, c := Workers(lo, hi, b, queueLen), CeilDiv(queueLen, b);
    CeilDivIsLeast(queueLen, b);
    if d >= c { Monotone(c, d, b); }
    if d <= c { Monotone(d - 1, c - 1, b); }
  }

  /** A longer queue never calls for fewer workers. */
  lemma WorkersMonotone(lo: nat, hi: nat, b: nat, q: nat, q': nat)
    requires b >= 1 && lo <= hi && q <= q'
    ensures Workers(lo, hi, b, q) <= Workers(lo, hi, b, q')
  {
    CeilDivIsLeast(q, b);
    CeilDivIsLeast(q', b);
  }

  // ----- Rounding -----

  ghost function Pow2(e: int): real
    decreases Abs(e)
  {
    if e == 0 then 1.0 else if e > 0 then 2.0 * Pow2(e - 1) else Pow2(e + 1) / 2.0
  }

  ghost function IPow2(n: nat): nat { if n == 0 then 1 else 2 * IPow2(n - 1) }

  function Abs(m: int): nat { if m < 0 then 0 - m else m }

  /** A binary floating-point format: significands below 2^prec, exponents from emin to emax. */
  datatype Format = Format(prec: nat, emin: int, emax: int) {
    /** Room for every integer below 2^prec and for the fractions next to it. */
    ghost predicate Wide() { prec >= 1 && emin <= 1 - prec && emax >= 1 }
  }

  const BINARY64 := Format(53, -1074, 971)

  lemma Binary64IsWide()
    ensures BINARY64.Wide()
  {
  }

  ghost predicate Scaled(x: real, m: int, e: int) { x == m as real * Pow2(e) }

  ghost predicate HasForm(f: Format, x: real, m: int, e: int)
  {
    Abs(m) < IPow2(f.prec) && f.emin <= e <= f.emax && Scaled(x, m, e)
  }

  /** The finite numbers of the format. */
  ghost predicate IsFloat(f: Format, x: real) { exists m: int, e: int :: HasForm(f, x, m, e) }

  ghost function Gap(x: real, y: real): real { if x < y then y - x else x - y }

  /** The significand of x is even, when its exponent is as small as the format allows. */
  ghost predicate IsEven(f: Format, x: real)
  {
    exists m: int, e: int :: HasForm(f, x, m, e) && (e == f.emin || 2 * Abs(m) >= IPow2(f.prec)) && m % 2 == 0
  }

  /** roundTiesToEven: a nearest number of the format, and on a tie the even one. */
  ghost predicate RoundsTo(f: Format, q: real, r: real)
  {
    && IsFloat(f, r)
    && (forall x :: IsFloat(f, x) ==> Gap(r, q) <= Gap(x, q))
    && (forall x :: IsFloat(f, x) && x != r && Gap(x, q) == Gap(r, q) ==> IsEven(f, r))
  }

  ghost predicate IsCeil(r: real, k: int) { (k - 1) as real < r <= k as real }

  ghost function Quotient(a: nat, b: nat): real
    requires b >= 1
  {
    a as real / b as real
  }

  // ----- Powers of two -----

  lemma {:induction false} Pow2Up(e: int)
    ensures Pow2(e + 1) == 2.0 * Pow2(e) && Pow2(e) > 0.0
    decreases Abs(e)
  {
    if e > 0 { Pow2Up(e - 1); }
    if e < 0 { Pow2Up(e + 1); }
  }

  lemma {:induction false} Pow2Monotone(d: int, e: int)
    requires d <= e
    ensures Pow2(d) <= Pow2(e)
    decreases e - d
  {
    if d < e {
      Pow2Monotone(d, e - 1);
      Pow2Up(e - 1);
    }
  }

  lemma {:induction false} Pow2Nat(n: nat)
    ensures Pow2(n) == IPow2(n) as real
  {
    if n > 0 {
      Pow2Nat(n - 1);
      assert IPow2(n) as real == 2.0 * IPow2(n - 1) as real;
    }
  }

  lemma {:induction false} Pow2Inverse(n: nat)
    ensures Pow2(0 - n) * Pow2(n) == 1.0
  {
    if n > 0 {
      Pow2Inverse(n - 1);
      Pow2Up(0 - n);
      Halves(Pow2(0 - n), Pow2(n - 1));
    }
  }

  lemma Halves(x: real, y: real)
    requires (2.0 * x) * y == 1.0
    ensures x * (2.0 * y) == 1.0
  {
  }

  lemma {:induction false} IPow2Grows(n: nat)
    ensures IPow2(n) > n
  {
    if n > 0 { IPow2Grows(n - 1); }
  }

  // ----- Numbers the format has -----

  lemma IntegerIsFloat(f: Format, n: nat)
    requires f.Wide() && n < IPow2(f.prec)
    ensures IsFloat(f, n as real)
  {
    assert HasForm(f, n as real, n, 0);
  }

  lemma Associate(p: nat, i: nat)
    ensures p * (2 * i) == 2 * p * i
  {
  }

  lemma {:induction false} Normalize(prec: nat, p: nat, k: nat) returns (j: nat)
    requires k < prec && IPow2(prec - 1 - k) <= p < IPow2(prec)
    ensures j <= k && IPow2(prec - 1) <= p * IPow2(j) < IPow2(prec)
    decreases k
  {
    if p >= IPow2(prec - 1) {
      j := 0;
    } else {
      var i := Normalize(prec, 2 * p, k - 1);
      j := i + 1;
      Associate(p, IPow2(i));
    }
  }

  lemma Regroup(p: real, w: real, u: real)
    requires u * w == 1.0
    ensures p * w * u == p
  {
    assert p * w * u == p * (u * w);
  }

  lemma ScaleDown(p: nat, j: nat)
    ensures p as real == (p * IPow2(j)) as real * Pow2(0 - j)
  {
    Pow2Inverse(j);
    Pow2Nat(j);
    assert (p * IPow2(j)) as real == p as real * IPow2(j) as real;
    Regroup(p as real, IPow2(j) as real, Pow2(0 - j));
  }

  lemma TimesMonotone(u: real, m: real, n: real)
    requires u >= 0.0 && n <= m
    ensures n * u <= m * u
  {
    assert (m - n) * u >= 0.0;
  }

  lemma Distribute(m: real, u: real)
    ensures (m + 1.0) * u == m * u + u
  {
  }

  lemma DoubleOver(n: real, u: real)
    ensures (2.0 * n) * u == n * (2.0 * u)
  {
  }

  lemma NormalForm(prec: nat, p: nat) returns (m: nat, e: int)
    requires prec >= 1 && 1 <= p < IPow2(prec)
    ensures IPow2(prec - 1) <= m < IPow2(prec) && 1 - prec <= e <= 0
    ensures p as real == m as real * Pow2(e) && Pow2(e) > 0.0
  {
    var j := Normalize(prec, p, prec - 1);
    e := 0;
    e := e - j;
    m := p * IPow2(j);
    Pow2Up(e);
    ScaleDown(p, j);
  }

  lemma SuccessorGap(p: real, m: nat, u: real, half: nat)
    requires p == m as real * u && u > 0.0 && half <= m
    ensures (m + 1) as real * u == p + u && half as real * u <= p
  {
    assert (m + 1) as real == m as real + 1.0;
    Distribute(m as real, u);
    TimesMonotone(u, m as real, half as real);
  }

  lemma SuccessorIsFloat(f: Format, m: nat, e: int)
    requires f.Wide() && m < IPow2(f.prec) && f.emin <= e <= 0
    ensures IsFloat(f, (m + 1) as real * Pow2(e))
  {
    var x := (m + 1) as real * Pow2(e);
    if m + 1 < IPow2(f.prec) {
      assert HasForm(f, x, m + 1, e);
    } else {
      var half := IPow2(f.prec - 1);
      Pow2Up(e);
      assert (m + 1) as real == 2.0 * half as real;
      DoubleOver(half as real, Pow2(e));
      assert HasForm(f, x, half, e + 1);
    }
  }

  /** Just above a positive integer below 2^prec the format has a number, within p / 2^(prec-1). */
  lemma NextAbove(f: Format, p: nat) returns (x: real)
    requires f.Wide() && 1 <= p < IPow2(f.prec)
    ensures IsFloat(f, x) && p as real < x && IPow2(f.prec - 1) as real * (x - p as real) <= p as real
  {
    var m, e := NormalForm(f.prec, p);
    SuccessorGap(p as real, m, Pow2(e), IPow2(f.prec - 1));
    SuccessorIsFloat(f, m, e);
    x := (m + 1) as real * Pow2(e);
    assert x - p as real == Pow2(e);
  }

  // ----- The quotient and its rounding -----

  lemma QuotientTimes(a: nat, b: nat)
    requires b >= 1
    ensures Quotient(a, b) * b as real == a as real
  {
  }

  lemma Cancel(x: real, y: real, b: real)
    requires b > 0.0
    ensures x * b < y * b <==> x < y
    ensures x * b <= y * b <==> x <= y
  {
    assert y * b - x * b == (y - x) * b;
  }

  /** A gap that is a 2^-(prec-1) part of p is less than twice the distance from p to a / b. */
  lemma GapIsSmall(p: real, q: real, b: real, d: real, n: real)
    requires b > 0.0 && n > 0.0
    requires n * d <= p && p * b < 2.0 * n && p * b + 1.0 <= q * b
    ensures d < 2.0 * (q - p)
  {
    TimesMonotone(b, p, n * d);
    assert n * d * b == (d * b) * n;
    Cancel(d * b, 2.0, n);
    assert (2.0 * (q - p)) * b == 2.0 * (q * b) - 2.0 * (p * b);
    Cancel(d, 2.0 * (q - p), b);
  }

  lemma Nearest(f: Format, q: real, r: real, x: real)
    requires RoundsTo(f, q, r) && IsFloat(f, x)
    ensures Gap(r, q) <= Gap(x, q)
  {
  }

  lemma CastProduct(p: nat, b: nat)
    ensures (p * b) as real == p as real * b as real
  {
  }

  lemma StepAbove(a: nat, b: nat, p: nat, n: nat)
    requires b >= 1 && p * b < a < 2 * n
    ensures p as real * b as real < 2.0 * n as real
    ensures p as real * b as real + 1.0 <= Quotient(a, b) * b as real
    ensures p as real < Quotient(a, b)
  {
    QuotientTimes(a, b);
    CastProduct(p, b);
    assert (p * b + 1) as real <= a as real < (2 * n) as real;
    Cancel(p as real, Quotient(a, b), b as real);
  }

  /** Above a positive integer p below a / b there is a number of the format nearer to a / b. */
  lemma NearerThan(f: Format, a: nat, b: nat, p: nat) returns (x: real)
    requires f.Wide() && b >= 1 && a < IPow2(f.prec) && p >= 1 && p * b < a && p <= p * b
    ensures IsFloat(f, x) && p as real < Quotient(a, b) && Gap(x, Quotient(a, b)) < Quotient(a, b) - p as real
  {
    var q, n := Quotient(a, b), IPow2(f.prec - 1);
    x := NextAbove(f, p);
    StepAbove(a, b, p, n);
    GapIsSmall(p as real, q, b as real, x - p as real, n as real);
  }

  /** The rounded quotient does not fall to a positive integer below the exact one. */
  lemma StaysAbove(f: Format, a: nat, b: nat, p: nat, r: real)
    requires f.Wide() && b >= 1 && a < IPow2(f.prec) && p >= 1 && p * b < a
    requires RoundsTo(f, Quotient(a, b), r)
    ensures p as real < r
  {
    Monotone(1, b, p);
    var x := NearerThan(f, a, b, p);
    Nearest(f, Quotient(a, b), r, x);
  }

  lemma AtMostCover(a: nat, b: nat, c: nat)
    requires b >= 1 && a <= c * b
    ensures Quotient(a, b) <= c as real
  {
    QuotientTimes(a, b);
    CastProduct(c, b);
    Cancel(Quotient(a, b), c as real, b as real);
  }

  /** Nor does it rise above an integer that covers it. */
  lemma StaysBelow(f: Format, a: nat, b: nat, c: nat, r: real)
    requires f.Wide() && b >= 1 && c < IPow2(f.prec) && a <= c * b
    requires RoundsTo(f, Quotient(a, b), r)
    ensures r <= c as real
  {
    IntegerIsFloat(f, c);
    AtMostCover(a, b, c);
    Nearest(f, Quotient(a, b), r, c as real);
  }

  // ----- The exact condition -----

  lemma Multiple(x: real, m: int, u: real)
    requires x == m as real * u && u > 0.0
    ensures m <= 0 ==> x <= 0.0
    ensures m >= 1 ==> x >= u
    ensures m >= 2 ==> x >= 2.0 * u
  {
    if m <= 0 { TimesMonotone(u, 0.0, m as real); }
    if m >= 1 { TimesMonotone(u, m as real, 1.0); }
    if m >= 2 { TimesMonotone(u, m as real, 2.0); }
  }

  lemma TinyFloats(f: Format, x: real)
    requires f.Wide() && IsFloat(f, x) && x > 0.0
    ensures x >= Pow2(f.emin)
  {
    var m, e :| HasForm(f, x, m, e);
    Pow2Up(e);
    Pow2Monotone(f.emin, e);
    Multiple(x, m, Pow2(e));
  }

  lemma SmallestIsFloat(f: Format)
    requires f.Wide()
    ensures IsFloat(f, Pow2(f.emin)) && IsFloat(f, 0.0)
  {
    IPow2Grows(f.prec);
    assert HasForm(f, Pow2(f.emin), 1, f.emin);
    assert HasForm(f, 0.0, 0, 0);
  }

  lemma SmallestIsOdd(f: Format)
    requires f.Wide() && f.prec >= 2
    ensures !IsEven(f, Pow2(f.emin))
  {
    var s := Pow2(f.emin);
    Pow2Up(f.emin);
    forall m: int, e: int | HasForm(f, s, m, e) && (e == f.emin || 2 * Abs(m) >= IPow2(f.prec))
      ensures m % 2 != 0
    {
      Pow2Up(e);
      Pow2Monotone(f.emin, e);
      Multiple(s, m, Pow2(e));
    }
  }

  /** The quotient is positive but not larger than half the smallest positive number. */
  ghost predicate Underflows(f: Format, a: nat, b: nat)
    requires f.Wide()
  {
    a > 0 && a * IPow2(1 - f.emin) <= b
  }

  lemma HalfSmallest(f: Format)
    requires f.Wide()
    ensures 2.0 * Pow2(f.emin - 1) == Pow2(f.emin) && Pow2(f.emin - 1) * IPow2(1 - f.emin) as real == 1.0
    ensures Pow2(f.emin - 1) > 0.0
  {
    Pow2Up(f.emin - 1);
    Pow2Inverse(1 - f.emin);
    Pow2Nat(1 - f.emin);
  }

  lemma CompareToHalf(a: nat, b: nat, w: nat, half: real)
    requires b >= 1 && w >= 1 && half * w as real == 1.0 && half > 0.0
    ensures a * w <= b <==> Quotient(a, b) <= half
  {
    QuotientTimes(a, b);
    CastProduct(a, w);
    var q := Quotient(a, b);
    assert a * w <= b <==> a as real * w as real <= b as real;
    assert (q * w as real) * b as real == a as real * w as real;
    Cancel(q * w as real, 1.0, b as real);
    assert half * w as real == 1.0;
    Cancel(q, half, w as real);
  }

  /** Rounding down to zero happens exactly then. */
  lemma PositiveUnlessUnderflow(f: Format, a: nat, b: nat, r: real)
    requires f.Wide() && f.prec >= 2 && b >= 1 && a > 0
    requires RoundsTo(f, Quotient(a, b), r)
    ensures r > 0.0 <==> !Underflows(f, a, b)
  {
    var q, half := Quotient(a, b), Pow2(f.emin - 1);
    HalfSmallest(f);
    IPow2Grows(1 - f.emin);
    CompareToHalf(a, b, IPow2(1 - f.emin), half);
    SmallestIsFloat(f);
    QuotientTimes(a, b);
    assert q > 0.0;
    if q > half {
      RoundsUp(f, q, r);
    } else {
      RoundsToZero(f, q, r);
    }
  }

  lemma RoundsUp(f: Format, q: real, r: real)
    requires f.Wide() && RoundsTo(f, q, r) && q > Pow2(f.emin - 1) > 0.0
    requires 2.0 * Pow2(f.emin - 1) == Pow2(f.emin)
    ensures r > 0.0
  {
    SmallestIsFloat(f);
    Nearest(f, q, r, Pow2(f.emin));
  }

  lemma RoundsToZero(f: Format, q: real, r: real)
    requires f.Wide() && f.prec >= 2 && RoundsTo(f, q, r) && 0.0 < q <= Pow2(f.emin - 1)
    requires 2.0 * Pow2(f.emin - 1) == Pow2(f.emin)
    ensures r <= 0.0
  {
    SmallestIsFloat(f);
    Nearest(f, q, r, 0.0);
    if r > 0.0 {
      TinyFloats(f, r);
      SmallestIsOdd(f);
    }
  }

  lemma CeilIs(r: real, k: int, c: int)
    requires IsCeil(r, k) && r <= c as real
    ensures k == c <==> (c - 1) as real < r
  {
  }

  lemma NoUnderflow(f: Format, a: nat, b: nat)
    requires f.Wide() && a > b >= 1
    ensures !Underflows(f, a, b)
  {
    IPow2Grows(1 - f.emin);
    Monotone(1, IPow2(1 - f.emin), a);
  }

  lemma ZeroStaysZero(f: Format, b: nat, r: real)
    requires f.Wide() && b >= 1 && RoundsTo(f, Quotient(0, b), r)
    ensures r == 0.0
  {
    SmallestIsFloat(f);
    Nearest(f, Quotient(0, b), r, 0.0);
  }

  lemma CeilDivFacts(a: nat, b: nat)
    requires b >= 1
    ensures var c := CeilDiv(a, b);
            && a <= c * b && c <= a && (c == 0 ==> a == 0)
            && (c >= 2 ==> (c - 1) * b < a && b < a)
  {
    var c := CeilDiv(a, b);
    CeilDivIsLeast(a, b);
    Monotone(1, b, a);
    if c >= 2 { Monotone(1, c - 1, b); }
  }

  lemma CeilAt(f: Format, a: nat, b: nat, c: nat, r: real)
    requires f.Wide() && f.prec >= 2 && b >= 1 && a < IPow2(f.prec)
    requires a <= c * b && c <= a && (c == 0 ==> a == 0) && (c >= 2 ==> (c - 1) * b < a && b < a)
    requires RoundsTo(f, Quotient(a, b), r)
    ensures r <= c as real && ((c - 1) as real < r <==> !Underflows(f, a, b))
  {
    StaysBelow(f, a, b, c, r);
    if c >= 2 {
      StaysAbove(f, a, b, c - 1, r);
      NoUnderflow(f, a, b);
    } else if c == 1 {
      PositiveUnlessUnderflow(f, a, b, r);
    } else {
      ZeroStaysZero(f, b, r);
    }
  }

  lemma FloatRoundsToItself(f: Format, q: real, r: real)
    requires IsFloat(f, q)
    ensures RoundsTo(f, q, r) <==> r == q
  {
    if RoundsTo(f, q, r) { Nearest(f, q, r, q); }
  }

  lemma ExactQuotient(n: nat, b: nat)
    requires b >= 1
    ensures Quotient(n * b, b) == n as real
  {
    QuotientTimes(n * b, b);
    CastProduct(n, b);
    Cancel(Quotient(n * b, b), n as real, b as real);
    Cancel(n as real, Quotient(n * b, b), b as real);
  }

  /** Rounding matters only where the division is not exact: an integer quotient below 2^prec rounds to
      itself, and to nothing else. */
  lemma ExactQuotientRoundsToItself(f: Format, n: nat, b: nat, r: real)
    requires f.Wide() && b >= 1 && n < IPow2(f.prec)
    ensures RoundsTo(f, Quotient(n * b, b), r) <==> r == n as real
  {
    ExactQuotient(n, b);
    IntegerIsFloat(f, n);
    FloatRoundsToItself(f, Quotient(n * b, b), r);
  }

  /** `math.ceil(queue_len / tasks_per_worker)` is the integer ceiling for every queue below 2^prec,
      unless the quotient underflows; then it is 0 where 1 worker is needed. In binary64 that takes a
      tasks_per_worker of at least queue_len * 2^1075. */
  lemma FloatCeilExactly(f: Format, a: nat, b: nat, r: real, k: int)
    requires f.Wide() && f.prec >= 2 && b >= 1 && a < IPow2(f.prec)
    requires RoundsTo(f, Quotient(a, b), r) && IsCeil(r, k)
    ensures k == CeilDiv(a, b) <==> !Underflows(f, a, b)
  {
    CeilDivFacts(a, b);
    CeilAt(f, a, b, CeilDiv(a, b), r);
    CeilIs(r, k, CeilDiv(a, b));
  }
}
