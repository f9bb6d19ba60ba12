/** Positional numerals: digits, most significant first, in any base. */
module Digits {
  import opened Words

  function Power(base: nat, k: nat): (p: nat)
    requires base >= 2
    ensures p >= 1
  {
    if k == 0 then 1 else base * Power(base, k - 1)
  }

  /** All digits of n but the last. */
  function Rest(n: nat, base: nat): (q: nat)
    requires base >= 2
    ensures n >= base ==> 0 < q < n
    ensures n < base ==> q == 0
  {
    Euclid(n, base);
    MultipleGrows(n / base, base);
    MultipleGrows(n / base, base - 1);
    n / base
  }

  function Last(n: nat, base: nat): (d: nat)
    requires base >= 2
    ensures d < base && (n < base ==> d == n)
  {
    n % base
  }

  lemma RestAndLast(n: nat, base: nat)
    requires base >= 2
    ensures n == Rest(n, base) * base + Last(n, base) && Last(n, base) < base
  {
    Euclid(n, base);
  }

  /** The w lowest digits of n. */
  function Padded(n: nat, w: nat, base: nat): (ds: seq<nat>)
    requires base >= 2
    ensures |ds| == w
  {
    if w == 0 then [] else Padded(Rest(n, base), w - 1, base) + [Last(n, base)]
  }

  /** The digits of n without leading zeros; zero itself has one digit. */
  function Numeral(n: nat, base: nat): (ds: seq<nat>)
    requires base >= 2
    ensures |ds| >= 1
  {
    if n < base then [n] else Numeral(Rest(n, base), base) + [Last(n, base)]
  }

  function Value(ds: seq<nat>, base: nat): nat
    requires base >= 2
  {
    if ds == [] then 0 else Value(ds[..|ds| - 1], base) * base + ds[|ds| - 1]
  }

  function Strip(ds: seq<nat>): seq<nat> {
    if ds != [] && ds[0] == 0 then Strip(ds[1..]) else ds
  }

  lemma {:induction false} NumeralDigits(n: nat, base: nat)
    requires base >= 2
    ensures forall i | 0 <= i < |Numeral(n, base)| :: Numeral(n, base)[i] < base
    ensures n > 0 ==> Numeral(n, base)[0] > 0
  {
    hide Rest, Last;
    if n < base {
    } else {
      RestAndLast(n, base);
      NumeralDigits(Rest(n, base), base);
    }
  }

  lemma ValueExtends(ds: seq<nat>, d: nat, base: nat)
    requires base >= 2
    ensures Value(ds + [d], base) == Value(ds, base) * base + d
  {
    assert (ds + [d])[..|ds|] == ds;
  }

  lemma ValueAppended(ds: seq<nat>, d: nat, base: nat, v: nat)
    requires base >= 2 && Value(ds, base) == v
    ensures Value(ds + [d], base) == v * base + d
  {
    ValueExtends(ds, d, base);
  }

  lemma NumeralExtends(n: nat, base: nat)
    requires n >= base >= 2
    ensures Numeral(n, base) == Numeral(Rest(n, base), base) + [Last(n, base)]
  {
  }

  lemma ValueOfDigit(n: nat, base: nat)
    requires base >= 2 && n < base
    ensures Value(Numeral(n, base), base) == n
  {
    assert Numeral(n, base) == [n];
    assert [n][..0] == [] && Value([], base) == 0;
  }

  lemma {:induction false} ValueOfNumeral(n: nat, base: nat)
    requires base >= 2
    ensures Value(Numeral(n, base), base) == n
  {
    hide Rest, Last, Numeral, Value;
    if n < base {
      ValueOfDigit(n, base);
    } else {
      var q, d := Rest(n, base), Last(n, base);
      ValueOfNumeral(q, base);
      RestAndLast(n, base);
      NumeralExtends(n, base);
      ValueAppended(Numeral(q, base), d, base, q);
    }
  }

  /** Padding to enough digits loses nothing. */
  lemma {:induction false} ValueOfPadded(n: nat, w: nat, base: nat)
    requires base >= 2 && n < Power(base, w)
    ensures Value(Padded(n, w, base), base) == n
  {
    hide Rest, Last;
    if w == 0 {
    } else {
      RestBelow(n, Power(base, w - 1), base);
      ValueOfPadded(Rest(n, base), w - 1, base);
      ValueExtends(Padded(Rest(n, base), w - 1, base), Last(n, base), base);
      RestAndLast(n, base);
    }
  }

  lemma RestBelow(n: nat, p: nat, base: nat)
    requires base >= 2 && n < base * p
    ensures Rest(n, base) < p
  {
    hide Rest, Last;
    RestAndLast(n, base);
    MultipleGrows(Rest(n, base) - p, base);
    assert (Rest(n, base) - p) * base == Rest(n, base) * base - p * base;
  }

  /** A padded numeral without its leading zeros is the plain one. */
  lemma {:induction false} StripOfPadded(n: nat, w: nat, base: nat)
    requires base >= 2 && 0 < n < Power(base, w)
    ensures Strip(Padded(n, w, base)) == Numeral(n, base)
  {
    hide Rest, Last;
    RestBelow(n, Power(base, w - 1), base);
    var high := Padded(Rest(n, base), w - 1, base);
    if n < base {
      ZerosAreZero(w - 1, base);
      StripDropsZeros(high, [n]);
    } else {
      StripOfPadded(Rest(n, base), w - 1, base);
      StripOfSum(high, [Last(n, base)]);
    }
  }

  lemma {:induction false} ZerosAreZero(w: nat, base: nat)
    requires base >= 2
    ensures forall i | 0 <= i < w :: Padded(0, w, base)[i] == 0
  {
    hide Rest, Last;
    if w == 0 {
    } else {
      ZerosAreZero(w - 1, base);
    }
  }

  lemma {:induction false} StripDropsZeros(zeros: seq<nat>, rest: seq<nat>)
    requires rest != [] && rest[0] != 0 && forall i | 0 <= i < |zeros| :: zeros[i] == 0
    ensures Strip(zeros + rest) == rest
  {
    if zeros == [] {
      assert zeros + rest == rest;
    } else {
      assert (zeros + rest)[1..] == zeros[1..] + rest;
      StripDropsZeros(zeros[1..], rest);
    }
  }

  lemma {:induction false} StripOfSum(a: seq<nat>, b: seq<nat>)
    requires Strip(a) != []
    ensures Strip(a + b) == Strip(a) + b
  {
    if a[0] != 0 {
    } else {
      assert (a + b)[1..] == a[1..] + b;
      StripOfSum(a[1..], b);
    }
  }

  /** Each digit by itself: divide away the lower ones, then reduce. */
  lemma {:induction false} DigitAt(n: nat, w: nat, base: nat, i: nat)
    requires base >= 2 && i < w
    ensures Padded(n, w, base)[i] == (n / Power(base, w - 1 - i)) % base
  {
    if i == w - 1 {
      assert n / 1 == n;
    } else {
      DigitAt(Rest(n, base), w - 1, base, i);
      DivideTwice(n, base, Power(base, w - 2 - i));
    }
  }

  lemma DivideTwice(n: nat, b: nat, c: nat)
    requires b > 0 && c > 0
    ensures b * c > 0 && (n / b) / c == n / (b * c)
  {
    var q := n / b;
    var q2, r2 := q / c, q % c;
    Euclid(n, b);
    Euclid(q, c);
    TwoRemainders(q2, c, r2, b, n % b);
    QuotientUnique(n, b * c, q2, r2 * b + n % b);
  }

  lemma TwoRemainders(q: nat, c: nat, r: nat, b: nat, s: nat)
    requires b > 0 && c > 0 && r < c && s < b
    ensures (q * c + r) * b + s == q * (b * c) + (r * b + s) && r * b + s < b * c
  {
    assert (q * c + r) * b == q * (b * c) + r * b;
    MultipleGrows(c - r, b);
    assert (c - r) * b == b * c - r * b;
  }

  /** Reducing before dividing picks the same digit. */
  lemma ReduceFirst(n: nat, p: nat, base: nat)
    requires base >= 2 && p > 0
    ensures base * p > 0 && (n % (base * p)) / p == (n / p) % base
    ensures (n % (base * p)) % p == n % p
  {
    MultipleGrows(base, p);
    var d := base * p;
    var q, r := n / p, n % p;
    Euclid(n, p);
    var q2, r2 := q / base, q % base;
    Euclid(q, base);
    assert n == (q2 * base + r2) * p + r;
    assert (q2 * base + r2) * p == q2 * (base * p) + r2 * p;
    assert r2 * p + r < d by {
      MultipleGrows(base - r2, p);
      assert (base - r2) * p == base * p - r2 * p;
    }
    QuotientUnique(n, d, q2, r2 * p + r);
    QuotientUnique(r2 * p + r, p, r2, r);
  }
}
