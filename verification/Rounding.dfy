/** A correctly rounded quotient always exists, so what module Desired says of one is never empty. */
module Rounding {
  import opened Desired

  lemma {:induction false} Pow2Shift(e: int, k: nat)
    ensures Pow2(e + k) == IPow2(k) as real * Pow2(e)
  {
    if k > 0 {
      Pow2Shift(e, k - 1);
      Pow2Up(e + k - 1);
      assert IPow2(k) == 2 * IPow2(k - 1);
      DoubleTimes(IPow2(k - 1), IPow2(k), Pow2(e));
    }
  }

  lemma DoubleTimes(k: nat, twice: nat, u: real)
    requires twice == 2 * k
    ensures 2.0 * (k as real * u) == twice as real * u
  {
    assert twice as real == 2.0 * k as real;
    Twice(k as real, u);
  }

  lemma Twice(k: real, u: real)
    ensures 2.0 * (k * u) == (2.0 * k) * u
  {
  }

  lemma FloorTimes(q: real, u: real) returns (m: int)
    requires u > 0.0
    ensures m as real * u <= q < (m + 1) as real * u
  {
    var x := q / u;
    assert x * u == q;
    m := x.Floor;
    assert m as real <= x < (m + 1) as real;
    TimesMonotone(u, x, m as real);
    Cancel(x, (m + 1) as real, u);
    assert m as real * u <= x * u < (m + 1) as real * u;
  }

  /** The largest exponent, from the bottom of the format, at which q still fills the significand. */
  lemma {:induction false} FindExponent(f: Format, q: real, top: int) returns (e: int)
    requires f.Wide() && q >= 0.0 && f.emin <= top <= 0 && q < IPow2(f.prec) as real * Pow2(top)
    ensures f.emin <= e <= top && q < IPow2(f.prec) as real * Pow2(e)
    ensures e == f.emin || q >= IPow2(f.prec) as real * Pow2(e - 1)
    decreases top - f.emin
  {
    if top == f.emin || q >= IPow2(f.prec) as real * Pow2(top - 1) {
      e := top;
    } else {
      e := FindExponent(f, q, top - 1);
    }
  }

  /** A significand as long as the format has room for. */
  ghost predicate Filled(f: Format, m: nat, e: int)
  {
    f.emin <= e <= 0 && m < IPow2(f.prec) && (e == f.emin || 2 * m >= IPow2(f.prec))
  }

  /** q lies between two neighbouring multiples of 2^e. */
  ghost predicate Bracket(q: real, m: int, u: real) { m as real * u <= q < (m + 1) as real * u }

  lemma HalfPower(f: Format, e: int)
    requires f.prec >= 1
    ensures IPow2(f.prec) == 2 * IPow2(f.prec - 1)
    ensures IPow2(f.prec) as real * Pow2(e - 1) == IPow2(f.prec - 1) as real * Pow2(e)
  {
    Pow2Up(e - 1);
    assert IPow2(f.prec) as real == 2.0 * IPow2(f.prec - 1) as real;
    DoubleOver(IPow2(f.prec - 1) as real, Pow2(e - 1));
  }

  lemma IntBelow(m: int, n: int, u: real, q: real)
    requires u > 0.0 && m as real * u <= q < n as real * u
    ensures m < n
  {
    Cancel(m as real, n as real, u);
  }

  /** The significand at exponent e, from the two bounds on q. */
  lemma BracketAt(q: real, u: real, full: nat) returns (m: nat)
    requires u > 0.0 && 0.0 <= q < full as real * u
    ensures m < full && Bracket(q, m, u)
  {
    var k := FloorTimes(q, u);
    assert 0 as real * u == 0.0;
    IntBelow(0, k + 1, u, q);
    IntBelow(k, full, u, q);
    m := k;
  }

  lemma FilledAbove(f: Format, q: real, m: nat, e: int)
    requires f.prec >= 1 && Pow2(e) > 0.0 && Bracket(q, m, Pow2(e))
    requires q >= IPow2(f.prec) as real * Pow2(e - 1)
    ensures 2 * m >= IPow2(f.prec)
  {
    HalfPower(f, e);
    IntBelow(IPow2(f.prec - 1), m + 1, Pow2(e), q);
  }

  lemma FindBracket(f: Format, q: real) returns (m: nat, e: int)
    requires f.Wide() && 0.0 <= q < IPow2(f.prec) as real
    ensures Filled(f, m, e) && Bracket(q, m, Pow2(e))
  {
    assert Pow2(0) == 1.0;
    e := FindExponent(f, q, 0);
    Pow2Up(e);
    m := BracketAt(q, Pow2(e), IPow2(f.prec));
    if e > f.emin {
      FilledAbove(f, q, m, e);
    }
  }

  ghost predicate Outside(x: real, m: int, u: real) { x <= m as real * u || x >= (m + 1) as real * u }

  ghost predicate Times(x: real, n: int, u: real) { x == n as real * u }

  lemma WholeMultiple(x: real, n: int, m: int, u: real)
    requires u > 0.0 && Times(x, n, u)
    ensures Outside(x, m, u)
  {
    if n <= m { TimesMonotone(u, m as real, n as real); } else { TimesMonotone(u, n as real, (m + 1) as real); }
  }

  /** The format has no number strictly between the two. */
  lemma NoneBetween(f: Format, m: nat, e: int, x: real)
    requires f.Wide() && Filled(f, m, e) && IsFloat(f, x)
    ensures Outside(x, m, Pow2(e))
  {
    var n: int, d: int :| HasForm(f, x, n, d);
    if d >= e {
      Coarser(x, n, d, e, m);
    } else {
      Finer(f, x, n, d, e, m);
    }
  }

  lemma Coarser(x: real, n: int, d: int, e: int, m: int)
    requires e <= d && Scaled(x, n, d)
    ensures Outside(x, m, Pow2(e))
  {
    Pow2Up(e);
    var k := IPow2(d - e);
    Shifted(e, d, k);
    CoarserUnits(x, n, m, k, Pow2(e), Pow2(d));
  }

  lemma Shifted(e: int, d: int, k: nat)
    requires e <= d && k == IPow2(d - e)
    ensures Times(Pow2(d), k, Pow2(e))
  {
    Pow2Shift(e, d - e);
    assert e + (d - e) == d;
  }

  lemma CoarserUnits(x: real, n: int, m: int, k: nat, u: real, v: real)
    requires u > 0.0 && Times(v, k, u) && Times(x, n, v)
    ensures Outside(x, m, u)
  {
    var whole := n * k;
    WholeTimes(x, n, k, whole, u, v);
    WholeMultiple(x, whole, m, u);
  }

  lemma WholeTimes(x: real, n: int, k: nat, whole: int, u: real, v: real)
    requires Times(v, k, u) && Times(x, n, v) && whole == n * k
    ensures Times(x, whole, u)
  {
    Reassociate(n as real, k as real, u);
    CastTimes(n, k);
  }

  lemma CastTimes(n: int, k: int)
    ensures (n * k) as real == n as real * k as real
  {
  }

  lemma Finer(f: Format, x: real, n: int, d: int, e: int, m: nat)
    requires f.prec >= 1 && d < e && n < IPow2(f.prec) && 2 * m >= IPow2(f.prec) && Scaled(x, n, d)
    ensures Outside(x, m, Pow2(e))
  {
    Pow2Up(d);
    Pow2Up(e);
    Pow2Monotone(d, e - 1);
    HalfPower(f, e);
    FinerUnits(x, n, IPow2(f.prec), IPow2(f.prec - 1), m, Pow2(d), Pow2(e - 1), Pow2(e));
  }

  lemma FinerUnits(x: real, n: int, full: nat, half: nat, m: int, u: real, v: real, w: real)
    requires Times(x, n, u) && n <= full && full as real * v == half as real * w && full == 2 * half && full <= 2 * m
    requires 0.0 <= u <= v && w >= 0.0
    ensures Outside(x, m, w)
  {
    FinerChain(n as real, full as real, half as real, m as real, u, v, w);
  }

  lemma FinerChain(n: real, full: real, half: real, m: real, u: real, v: real, w: real)
    requires n <= full && full >= 0.0 && u >= 0.0 && u <= v && full * v == half * w && half <= m && w >= 0.0
    ensures n * u <= m * w
  {
    TimesMonotone(u, full, n);
    Swap(full, u, v);
    TimesMonotone(w, m, half);
  }

  lemma Reassociate(n: real, k: real, u: real)
    ensures n * (k * u) == (n * k) * u
  {
  }

  lemma Swap(n: real, u: real, v: real)
    requires n >= 0.0 && u <= v
    ensures n * u <= n * v
  {
    TimesMonotone(n, v, u);
    assert n * u == u * n && n * v == v * n;
  }

  /** Of two neighbours, x the lower and y the upper, one has an even significand. */
  lemma OneIsEven(f: Format, x: real, y: real, m: nat, e: int)
    requires f.Wide() && f.prec >= 2 && Filled(f, m, e) && Scaled(x, m, e) && Scaled(y, m + 1, e)
    ensures IsEven(f, x) || IsEven(f, y)
  {
    if m % 2 == 0 {
      EvenSignificand(f, x, m, e);
    } else if m + 1 < IPow2(f.prec) {
      EvenSignificand(f, y, m + 1, e);
    } else {
      EvenCarry(f, y, m + 1, e);
    }
  }

  lemma EvenSignificand(f: Format, x: real, m: nat, e: int)
    requires f.Wide() && Filled(f, m, e) && m % 2 == 0 && Scaled(x, m, e)
    ensures IsEven(f, x)
  {
    assert Abs(m) == m;
    assert HasForm(f, x, m, e);
  }

  lemma EvenCarry(f: Format, x: real, full: nat, e: int)
    requires f.Wide() && f.prec >= 2 && f.emin <= e <= 0 && full == IPow2(f.prec) && Scaled(x, full, e)
    ensures IsEven(f, x)
  {
    var half := IPow2(f.prec - 1);
    IPow2Grows(f.prec);
    assert full == 2 * half && half == 2 * IPow2(f.prec - 2) && Abs(half) == half;
    CarryScaled(x, full, half, e);
    assert HasForm(f, x, half, e + 1);
  }

  lemma CarryScaled(x: real, full: nat, half: nat, e: int)
    requires full == 2 * half && Scaled(x, full, e)
    ensures Scaled(x, half, e + 1)
  {
    Pow2Up(e);
    assert full as real == 2.0 * half as real;
    DoubleOver(half as real, Pow2(e));
  }

  /** No number of the format lies strictly between lo and hi. */
  ghost predicate Neighbours(f: Format, lo: real, hi: real)
  {
    forall x :: IsFloat(f, x) ==> x <= lo || x >= hi
  }

  /** The nearer of two neighbours is what q rounds to, the even one when they are equally near. */
  lemma NearerRounds(f: Format, q: real, lo: real, hi: real, r: real)
    requires Neighbours(f, lo, hi) && lo <= q < hi && IsFloat(f, r) && (r == lo || r == hi)
    requires (q - lo < hi - q ==> r == lo) && (q - lo > hi - q ==> r == hi)
    requires q - lo == hi - q ==> IsEven(f, r)
    ensures RoundsTo(f, q, r)
  {
    forall x | IsFloat(f, x)
      ensures Gap(r, q) <= Gap(x, q)
      ensures x != r && Gap(x, q) == Gap(r, q) ==> q - lo == hi - q
    {
      assert x <= lo || x >= hi;
    }
  }

  lemma NeighboursAt(f: Format, lo: real, hi: real, m: nat, e: int)
    requires f.Wide() && Filled(f, m, e) && Scaled(lo, m, e) && Scaled(hi, m + 1, e)
    ensures Neighbours(f, lo, hi)
  {
    forall x | IsFloat(f, x)
      ensures x <= lo || x >= hi
    {
      NoneBetween(f, m, e, x);
    }
  }

  lemma BothAreFloats(f: Format, lo: real, hi: real, m: nat, e: int)
    requires f.Wide() && Filled(f, m, e) && Scaled(lo, m, e) && Scaled(hi, m + 1, e)
    ensures IsFloat(f, lo) && IsFloat(f, hi)
  {
    assert HasForm(f, lo, m, e);
    SuccessorIsFloat(f, m, e);
  }

  lemma FindNeighbours(f: Format, q: real) returns (lo: real, hi: real)
    requires f.Wide() && f.prec >= 2 && 0.0 <= q < IPow2(f.prec) as real
    ensures Neighbours(f, lo, hi) && lo <= q < hi && IsFloat(f, lo) && IsFloat(f, hi)
    ensures IsEven(f, lo) || IsEven(f, hi)
  {
    var m, e := FindBracket(f, q);
    lo, hi := m as real * Pow2(e), (m + 1) as real * Pow2(e);
    NeighboursAt(f, lo, hi, m, e);
    BothAreFloats(f, lo, hi, m, e);
    OneIsEven(f, lo, hi, m, e);
  }

  lemma RoundedExists(f: Format, q: real) returns (r: real)
    requires f.Wide() && f.prec >= 2 && 0.0 <= q < IPow2(f.prec) as real
    ensures RoundsTo(f, q, r)
  {
    var lo, hi := FindNeighbours(f, q);
    r := if q - lo < hi - q then lo else if q - lo > hi - q then hi else if IsEven(f, lo) then lo else hi;
    NearerRounds(f, q, lo, hi, r);
  }

  lemma QuotientBelow(a: nat, b: nat, n: nat)
    requires b >= 1 && a < n
    ensures 0.0 <= Quotient(a, b) < n as real
  {
    QuotientTimes(a, b);
    Cancel(Quotient(a, b), n as real, b as real);
    Cancel(0.0, Quotient(a, b), b as real);
    TimesMonotone(n as real, b as real, 1.0);
  }

  /** For every queue below 2^prec the division has a correctly rounded result and that has a ceiling, which is
      the integer ceiling exactly unless the quotient underflows. */
  lemma FloatCeilExists(f: Format, a: nat, b: nat) returns (r: real, k: int)
    requires f.Wide() && f.prec >= 2 && b >= 1 && a < IPow2(f.prec)
    ensures RoundsTo(f, Quotient(a, b), r) && IsCeil(r, k)
    ensures k == CeilDiv(a, b) <==> !Underflows(f, a, b)
  {
    QuotientBelow(a, b, IPow2(f.prec));
    r := RoundedExists(f, Quotient(a, b));
    k := if r == r.Floor as real then r.Floor else r.Floor + 1;
    FloatCeilExactly(f, a, b, r, k);
  }

  /** An input where it is not: a queue of 1 and, for binary64, 2^1075 tasks per worker. */
  lemma TinyQuotientIsLost(f: Format, b: nat) returns (r: real, k: int)
    requires f.Wide() && f.prec >= 2 && b == IPow2(1 - f.emin)
    ensures b >= 1 && RoundsTo(f, Quotient(1, b), r) && IsCeil(r, k)
    ensures CeilDiv(1, b) == 1 && k != 1
  {
    IPow2Grows(1 - f.emin);
    IPow2Grows(f.prec);
    r, k := FloatCeilExists(f, 1, b);
  }
}
