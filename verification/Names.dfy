/** Decimal numerals and process names.

    Supervisor names the processes of a program by expanding a template such as
    `%(program_name)s_%(process_num)02d`. The plugin sorts processes by that name, as strings, so
    "highest process number first" rests on how zero-padded numerals compare. The same numerals are
    what the plugin prints after `numprocs` and what is read back from there. */
module Names {

  datatype Option<+T> = None | Some(value: T)

  function Min(a: int, b: int): int { if a <= b then a else b }

  function Max(a: int, b: int): int { if a <= b then b else a }

  function Pow10(w: nat): (p: nat)
    ensures p >= 1
  {
    if w == 0 then 1 else 10 * Pow10(w - 1)
  }

  function Digit(d: nat): char
    requires d < 10
  {
    (d + '0' as int) as char
  }

  predicate IsDigit(c: char) { '0' <= c <= '9' }

  function DigitValue(c: char): nat
    requires IsDigit(c)
  {
    c as int - '0' as int
  }

  /** The decimal numeral of a natural number, as `%d` prints it. */
  function Show(n: nat): string
  {
    if n < 10 then [Digit(n)] else Show(n / 10) + [Digit(n % 10)]
  }

  function ShowInt(n: int): string
  {
    if n < 0 then "-" + Show(-n) else Show(n)
  }

  /** A numeral made of decimal digits only; anything else has no value. */
  function ParseNat(s: string): Option<nat>
  {
    if |s| == 0 || !IsDigit(s[|s| - 1]) then None
    else if |s| == 1 then Some(DigitValue(s[0]))
    else match ParseNat(s[..|s| - 1])
         case None => None
         case Some(v) => Some(10 * v + DigitValue(s[|s| - 1]))
  }

  function ParseInt(s: string): Option<int>
  {
    if |s| > 0 && s[0] == '-' then
      match ParseNat(s[1..])
      case None => None
      case Some(v) => Some(0 - v)
    else
      match ParseNat(s)
      case None => None
      case Some(v) => Some(v)
  }

  lemma {:induction false} ShowIsDigits(n: nat)
    ensures |Show(n)| > 0
    ensures forall k :: 0 <= k < |Show(n)| ==> IsDigit(Show(n)[k])
  {
    if n >= 10 {
      ShowIsDigits(n / 10);
    }
  }

  lemma {:induction false} ParseNatShow(n: nat)
    ensures ParseNat(Show(n)) == Some(n)
  {
    if n >= 10 {
      ParseNatShow(n / 10);
      var s := Show(n);
      assert s[..|s| - 1] == Show(n / 10);
      ShowIsDigits(n / 10);
    }
  }

  lemma ParseSigned(s: string, v: nat)
    requires |s| > 0 && IsDigit(s[0]) && ParseNat(s) == Some(v)
    ensures ParseInt(s) == Some(v) && ParseInt("-" + s) == Some(0 - v)
  {
    assert ("-" + s)[1..] == s;
  }

  /** Printing a process count and reading it back gives the same number. */
  lemma ParseIntShowInt(n: int)
    ensures ParseInt(ShowInt(n)) == Some(n)
  {
    var m := if n < 0 then -n else n;
    ParseNatShow(m);
    ShowIsDigits(m);
    ParseSigned(Show(m), m);
  }

  // ----- Zero padding -----

  function Zeros(k: nat): string { seq(k, _ => '0') }

  /** `%0<w>d`: the numeral of n, padded on the left with zeros to at least w characters. */
  function Pad(n: nat, w: nat): string
  {
    Zeros(Max(0, w - |Show(n)|)) + Show(n)
  }

  lemma PadStep(n: nat, w: nat)
    requires w > 1
    ensures Pad(n, w) == Pad(n / 10, w - 1) + [Digit(n % 10)]
  {
    if n < 10 {
      assert Zeros(w - 2) + "0" == Zeros(w - 1);
    } else {
      assert |Show(n)| == |Show(n / 10)| + 1;
    }
  }

  lemma {:induction false} PadLength(n: nat, w: nat)
    requires w >= 1 && n < Pow10(w)
    ensures |Pad(n, w)| == w
  {
    if w > 1 {
      PadLength(n / 10, w - 1);
      PadStep(n, w);
    }
  }

  // ----- String order -----

  /** Python's order on strings: the first differing character decides, a proper prefix comes first. */
  predicate Less(a: string, b: string)
  {
    |b| > 0 && (|a| == 0 || a[0] < b[0] || (a[0] == b[0] && Less(a[1..], b[1..])))
  }

  lemma {:induction false} LessPrefix(p: string, a: string, b: string)
    ensures Less(p + a, p + b) <==> Less(a, b)
  {
    if p == "" {
      assert p + a == a && p + b == b;
    } else {
      assert (p + a)[1..] == p[1..] + a && (p + b)[1..] == p[1..] + b;
      LessPrefix(p[1..], a, b);
    }
  }

  lemma {:induction false} LessAppend(a: string, b: string, x: string, y: string)
    requires |a| == |b| && Less(a, b)
    ensures Less(a + x, b + y)
  {
    assert (a + x)[1..] == a[1..] + x && (b + y)[1..] == b[1..] + y;
    if a[0] == b[0] {
      LessAppend(a[1..], b[1..], x, y);
    }
  }

  lemma {:induction false} LessTransitive(a: string, b: string, c: string)
    requires Less(a, b) && Less(b, c)
    ensures Less(a, c)
  {
    if |a| > 0 && a[0] == b[0] && b[0] == c[0] {
      LessTransitive(a[1..], b[1..], c[1..]);
    }
  }

  lemma {:induction false} LessIrreflexive(a: string)
    ensures !Less(a, a)
  {
    if |a| > 0 {
      LessIrreflexive(a[1..]);
    }
  }

  lemma {:induction false} LessTotal(a: string, b: string)
    ensures a == b || Less(a, b) || Less(b, a)
  {
    if |a| > 0 && |b| > 0 && a[0] == b[0] {
      LessTotal(a[1..], b[1..]);
    }
  }

  /** Padding loses nothing: the padded numeral still reads as its number. */
  lemma {:induction false} PadParses(n: nat, w: nat)
    ensures ParseNat(Pad(n, w)) == Some(n)
  {
    if w <= 1 {
      ShowIsDigits(n);
      assert Zeros(0) == "" && Pad(n, w) == Show(n);
      ParseNatShow(n);
    } else {
      PadStep(n, w);
      PadParses(n / 10, w - 1);
      assert Pad(n, w)[..|Pad(n, w)| - 1] == Pad(n / 10, w - 1);
    }
  }

  lemma {:induction false} PadMonotone(i: nat, j: nat, w: nat)
    requires w >= 1 && i < j < Pow10(w)
    ensures Less(Pad(i, w), Pad(j, w))
  {
    if w > 1 {
      PadStep(i, w);
      PadStep(j, w);
      PadLength(i / 10, w - 1);
      PadLength(j / 10, w - 1);
      if i / 10 < j / 10 {
        PadMonotone(i / 10, j / 10, w - 1);
        LessAppend(Pad(i / 10, w - 1), Pad(j / 10, w - 1), [Digit(i % 10)], [Digit(j % 10)]);
      } else {
        LessPrefix(Pad(i / 10, w - 1), [Digit(i % 10)], [Digit(j % 10)]);
      }
    }
  }

  // ----- How long a numeral is -----

  /** The length of the padded numeral. */
  function Size(n: nat, w: nat): nat { |Pad(n, w)| }

  lemma {:induction false} ShowLength(n: nat, k: nat)
    requires k >= 1
    ensures |Show(n)| <= k <==> n < Pow10(k)
  {
    ShowIsDigits(n);
    if k > 1 && n >= 10 {
      ShowLength(n / 10, k - 1);
    }
  }

  lemma SizeIs(n: nat, w: nat)
    ensures Size(n, w) == Max(w, |Show(n)|) >= 1 && n < Pow10(Size(n, w))
    ensures Size(n, w) > w && Size(n, w) > 1 ==> n >= Pow10(Size(n, w) - 1)
  {
    ShowIsDigits(n);
    ShowLength(n, Size(n, w));
    if Size(n, w) > 1 { ShowLength(n, Size(n, w) - 1); }
  }

  /** Numbers from `first` on are padded as if the width were the length of the first numeral. */
  lemma PadFrom(first: nat, n: nat, w: nat)
    requires first <= n
    ensures Pad(n, w) == Pad(n, Size(first, w))
  {
    SizeIs(first, w);
    ShowIsDigits(first);
    ShowLength(n, |Show(first)|);
    if |Show(first)| > 1 {
      ShowLength(first, |Show(first)| - 1);
      ShowLength(n, |Show(first)| - 1);
    }
  }

  function Nines(k: nat): string { seq(k, _ => '9') }

  lemma {:induction false} NinesNumeral(k: nat)
    requires k >= 1
    ensures Pad(Pow10(k) - 1, k) == Nines(k)
  {
    if k > 1 {
      NinesNumeral(k - 1);
      PadStep(Pow10(k) - 1, k);
      assert (Pow10(k) - 1) / 10 == Pow10(k - 1) - 1 && Digit((Pow10(k) - 1) % 10) == '9';
      assert Nines(k) == Nines(k - 1) + "9";
    }
  }

  lemma {:induction false} PowerOfTenNumeral(w: nat)
    ensures Show(Pow10(w))[0] == '1' && |Show(Pow10(w))| == w + 1
  {
    if w > 0 {
      PowerOfTenNumeral(w - 1);
      assert Pow10(w) / 10 == Pow10(w - 1);
    }
  }

  // ----- Process names -----

  function Name(prefix: string, w: nat, i: nat): string { prefix + Pad(i, w) }

  /** Name order is number order on the n processes numbered from `first` on. */
  ghost predicate NamesFollowNumbers(prefix: string, w: nat, first: nat, n: nat)
  {
    forall i: nat, j: nat :: first <= i < j < first + n ==> Less(Name(prefix, w, i), Name(prefix, w, j))
  }

  lemma NameOrder(prefix: string, w: nat, i: nat, j: nat)
    requires i < j < Pow10(Size(i, w))
    ensures Less(Name(prefix, w, i), Name(prefix, w, j))
    ensures !Less(Name(prefix, w, j), Name(prefix, w, i))
  {
    SizeIs(i, w);
    PadFrom(i, i, w);
    PadFrom(i, j, w);
    PadMonotone(i, j, Size(i, w));
    LessPrefix(prefix, Pad(i, w), Pad(j, w));
    LessAsymmetric(Name(prefix, w, i), Name(prefix, w, j));
  }

  lemma LessAsymmetric(a: string, b: string)
    requires Less(a, b)
    ensures !Less(b, a)
  {
    if Less(b, a) {
      LessTransitive(a, b, a);
      LessIrreflexive(a);
    }
  }

  /** Two processes never share a name, so sorting by name is a strict order. */
  lemma NameTotal(prefix: string, w: nat, i: nat, j: nat)
    requires i != j
    ensures Less(Name(prefix, w, i), Name(prefix, w, j)) || Less(Name(prefix, w, j), Name(prefix, w, i))
  {
    PadParses(i, w);
    PadParses(j, w);
    LessTotal(Pad(i, w), Pad(j, w));
    LessPrefix(prefix, Pad(i, w), Pad(j, w));
    LessPrefix(prefix, Pad(j, w), Pad(i, w));
  }

  /** The longer numeral of 10^k sorts below that of 10^k - 1. */
  lemma CrossingBreaksOrder(prefix: string, w: nat, k: nat)
    requires k >= 1 && k >= w
    ensures !Less(Name(prefix, w, Pow10(k) - 1), Name(prefix, w, Pow10(k)))
  {
    var i, j := Pow10(k) - 1, Pow10(k);
    NinesPadded(k, w);
    PowerOfTenNumeral(k);
    assert Zeros(0) == "" && Pad(j, w) == Show(j);
    LessPrefix(prefix, Pad(i, w), Pad(j, w));
  }

  /** Sorting a group of n processes numbered from `first` on by name sorts it by number exactly when the
      last number has no more digits than the first numeral has characters. */
  lemma NamesFollowNumbersExactly(prefix: string, w: nat, first: nat, n: nat)
    ensures NamesFollowNumbers(prefix, w, first, n) <==> first + n <= Pow10(Size(first, w))
  {
    var k := Size(first, w);
    SizeIs(first, w);
    if first + n <= Pow10(k) {
      forall i: nat, j: nat | first <= i < j < first + n
        ensures Less(Name(prefix, w, i), Name(prefix, w, j))
      {
        PadFrom(first, i, w);
        PadLength(i, k);
        NameOrder(prefix, w, i, j);
      }
    } else {
      CrossingBreaksOrder(prefix, w, k);
      var i: nat, j: nat := Pow10(k) - 1, Pow10(k);
      assert first <= i < j < first + n && !Less(Name(prefix, w, i), Name(prefix, w, j));
    }
  }

  // ----- The greatest name -----

  /** The last of the n processes numbered from `first` on has the greatest name. */
  ghost predicate LastIsGreatest(prefix: string, w: nat, first: nat, n: nat)
  {
    forall i: nat :: first <= i < first + n - 1 ==> Less(Name(prefix, w, i), Name(prefix, w, first + n - 1))
  }

  /** A numeral that is nines but for its last digit. */
  lemma NinesBut(last: nat, m: nat, k: nat)
    requires 1 <= k < m && Pow10(m) - 10 <= last < Pow10(m)
    ensures |Show(last)| == m && Show(last)[..k] == Nines(k)
  {
    var front := last / 10;
    assert front == Pow10(m - 1) - 1;
    ShowLength(last, m);
    ShowLength(last, m - 1);
    ShowLength(front, m - 1);
    NinesNumeral(m - 1);
    assert last >= 10;
    assert Show(last) == Show(front) + [Digit(last % 10)];
    assert Zeros(0) == "";
    assert Show(front) == Nines(m - 1);
  }

  lemma ShorterIsLess(x: nat, w: nat, last: nat, m: nat)
    requires 1 <= Size(x, w) < m && Pow10(m) - 10 <= last < Pow10(m)
    ensures Less(Pad(x, w), Show(last))
  {
    var k := Size(x, w);
    SizeIs(x, w);
    PadFrom(x, x, w);
    NinesBut(last, m, k);
    NinesNumeral(k);
    var rest := Show(last)[k..];
    assert Show(last) == Nines(k) + rest && rest != "";
    if x == Pow10(k) - 1 {
      LessPrefix(Nines(k), "", rest);
      assert Nines(k) + "" == Nines(k);
    } else {
      PadMonotone(x, Pow10(k) - 1, k);
      LessAppend(Pad(x, k), Nines(k), "", rest);
      assert Pad(x, k) + "" == Pad(x, k);
    }
  }

  lemma NinesAreGreater(last: nat, m: nat)
    requires m >= 2 && Pow10(m - 1) <= last < Pow10(m) - 10
    ensures Less(Show(last), Nines(m - 1))
  {
    var front := last / 10;
    NinesNumeral(m - 1);
    ShowLength(front, m - 1);
    if m > 2 { ShowLength(front, m - 2); }
    ShowIsDigits(front);
    assert Zeros(0) == "" && Pad(front, m - 1) == Show(front);
    PadLength(front, m - 1);
    PadMonotone(front, Pow10(m - 1) - 1, m - 1);
    LessAppend(Show(front), Nines(m - 1), [Digit(last % 10)], "");
    assert Nines(m - 1) + "" == Nines(m - 1);
    assert Show(last) == Show(front) + [Digit(last % 10)];
  }

  /** The greatest name is the last process's exactly when name order is number order, or the last number is
      nines but for its last digit. */
  lemma LastIsGreatestExactly(prefix: string, w: nat, first: nat, n: nat)
    requires n >= 1
    ensures var last := first + n - 1;
            LastIsGreatest(prefix, w, first, n) <==>
              last < Pow10(Size(first, w)) || last >= Pow10(Size(last, w)) - 10
  {
    var last := first + n - 1;
    SizeIs(first, w);
    if last < Pow10(Size(first, w)) {
      NamesFollowNumbersExactly(prefix, w, first, n);
      assert forall i: nat :: first <= i < last ==> Less(Name(prefix, w, i), Name(prefix, w, last));
    } else if last >= Pow10(Size(last, w)) - 10 {
      LastIsLonger(first, w, last);
      forall i: nat | first <= i < last
        ensures Less(Name(prefix, w, i), Name(prefix, w, last))
      {
        LastBeats(prefix, w, i, last);
      }
    } else {
      LastIsBeaten(prefix, w, first, last);
    }
  }

  lemma LastIsLonger(first: nat, w: nat, last: nat)
    requires first <= last && last >= Pow10(Size(first, w))
    ensures Size(last, w) > Size(first, w) >= w && Pad(last, w) == Show(last)
  {
    SizeIs(first, w);
    SizeIs(last, w);
    ShowLength(last, Size(first, w));
    assert Zeros(0) == "";
  }

  lemma LastIsBeaten(prefix: string, w: nat, first: nat, last: nat)
    requires first <= last && last >= Pow10(Size(first, w)) && last < Pow10(Size(last, w)) - 10
    ensures exists i: nat :: first <= i < last && !Less(Name(prefix, w, i), Name(prefix, w, last))
  {
    var k, m := Size(first, w), Size(last, w);
    LastIsLonger(first, w, last);
    SizeIs(first, w);
    SizeIs(last, w);
    PowMonotone(k, m - 1);
    var x: nat := Pow10(m - 1) - 1;
    NinesAreGreater(last, m);
    NinesPadded(m - 1, w);
    LessPrefix(prefix, Show(last), Nines(m - 1));
    LessAsymmetric(Name(prefix, w, last), Name(prefix, w, x));
    assert first <= x < last;
  }

  lemma NinesPadded(k: nat, w: nat)
    requires k >= 1 && k >= w
    ensures Pad(Pow10(k) - 1, w) == Nines(k)
  {
    NinesNumeral(k);
    ShowLength(Pow10(k) - 1, k);
    if k > 1 { ShowLength(Pow10(k) - 1, k - 1); }
  }

  lemma {:induction false} PowMonotone(a: nat, b: nat)
    requires a <= b
    ensures Pow10(a) <= Pow10(b)
    decreases b
  {
    if a < b { PowMonotone(a, b - 1); }
  }

  lemma LastBeats(prefix: string, w: nat, x: nat, last: nat)
    requires x < last && Size(last, w) > w && Pow10(Size(last, w)) - 10 <= last
    ensures Less(Name(prefix, w, x), Name(prefix, w, last))
  {
    var m := Size(last, w);
    SizeIs(x, w);
    SizeIs(last, w);
    if last < Pow10(Size(x, w)) {
      NameOrder(prefix, w, x, last);
    } else {
      ShowLength(last, Size(x, w));
      assert Zeros(0) == "" && Pad(last, w) == Show(last);
      ShorterIsLess(x, w, last, m);
      LessPrefix(prefix, Pad(x, w), Pad(last, w));
    }
  }
}
