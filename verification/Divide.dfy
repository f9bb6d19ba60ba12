/** Leading zeros and shift-subtract division (tests/programs/libc/math.c). One method stands for the
    32-bit and the 64-bit function of each pair: they differ in the width of the operands only. */
module Divide {
  import opened Words
  import D = Digits

  function ShiftUp(x: nat, n: nat, width: nat): nat { (x * Pow2(n)) % Pow2(width) }

  function ShiftDown(x: nat, n: nat): int { x / Pow2(n) }

  /** `q |= 0x1u << i`: the constant has 32 bits, so the amount counts modulo 32. */
  function SetBit(q: nat, i: nat): nat {
    if BitSet(q, i % 32) then q else q + Pow2(i % 32)
  }

  lemma {:induction false} BitLengthIs(x: nat, k: nat)
    requires x < Pow2(k) && (k > 0 ==> Pow2(k - 1) <= x)
    ensures BitLength(x) == k
  {
    if k <= 1 {
    } else {
      assert Pow2(k) == 2 * Pow2(k - 1) && Pow2(k - 1) == 2 * Pow2(k - 2);
      BitLengthIs(x / 2, k - 1);
    }
  }

  /** The place of the highest set bit, counted from the top of the word. */
  method Clz(val: nat, width: nat) returns (leadZeros: nat)
    requires val < Pow2(width) && width >= 1
    ensures leadZeros == width - BitLength(val)
    ensures val != 0 ==> Pow2(width - 1) <= val * Pow2(leadZeros) < Pow2(width)
  {
    leadZeros := 0;
    var v, i := val, 0;
    assert v == val * Pow2(0);
    while i < width && ShiftDown(v, width - 1) == 0
      invariant leadZeros == i <= width
      invariant v == val * Pow2(i) < Pow2(width)
      invariant val < Pow2(width - i)
    {
      LeadingZeroStep(val, v, i, width);
      leadZeros := leadZeros + 1;
      i := i + 1;
      v := ShiftUp(v, 1, width);
    }
    if i == width {
      assert Pow2(0) == 1;
    } else {
      LeadingOne(val, v, i, width);
    }
  }

  lemma LeadingZeroStep(val: nat, v: nat, i: nat, width: nat)
    requires i < width && v == val * Pow2(i) && ShiftDown(v, width - 1) == 0 && val < Pow2(width - i)
    ensures ShiftUp(v, 1, width) == val * Pow2(i + 1) < Pow2(width)
    ensures val < Pow2(width - i - 1)
  {
    TopBit(val, v, i, width);
    Doubled(val, Pow2(i));
    var d := 2 * v;
    assert Pow2(1) == 2 && v * Pow2(1) == d;
    assert d < Pow2(width);
    SmallModulus(d, Pow2(width));
  }

  lemma LeadingOne(val: nat, v: nat, i: nat, width: nat)
    requires i < width && v == val * Pow2(i) && ShiftDown(v, width - 1) != 0 && val < Pow2(width - i)
    ensures Pow2(width - 1) <= v && BitLength(val) == width - i
  {
    TopBit(val, v, i, width);
    BitLengthIs(val, width - i);
  }

  /** The top bit of the shifted word is clear when the number has a digit less. */
  lemma TopBit(val: nat, v: nat, i: nat, width: nat)
    requires i < width && v == val * Pow2(i)
    ensures ShiftDown(v, width - 1) == 0 <==> v < Pow2(width - 1)
    ensures v < Pow2(width - 1) <==> val < Pow2(width - 1 - i)
  {
    QuotientZero(v, Pow2(width - 1));
    Pow2Add(width - 1 - i, i);
    ProductOrder(val, Pow2(width - 1 - i), Pow2(i));
  }

  lemma Doubled(a: nat, b: nat)
    ensures a * (2 * b) == 2 * (a * b)
  {
  }

  lemma QuotientZero(x: nat, d: nat)
    requires d > 0
    ensures x / d == 0 <==> x < d
  {
    assert x == (x / d) * d + x % d;
    if x >= d { QuotientPositive(x, d); }
  }

  lemma QuotientPositive(x: nat, d: nat)
    requires 0 < d <= x
    ensures x / d >= 1
  {
    assert x == (x / d) * d + x % d;
    MultipleGrows(x / d, d);
  }

  lemma ProductOrder(a: nat, b: nat, c: nat)
    requires c > 0
    ensures a * c < b * c <==> a < b
  {
    MultipleGrows(b - a, c);
    assert (b - a) * c == b * c - a * c;
  }

  // ---------------------------------------------------------------------------
  // Division
  // ---------------------------------------------------------------------------

  // Quotient and remainder by the divisor shifted left by i
  ghost function Quotient(a: nat, b: nat, i: nat): nat
    requires b > 0
  {
    MultipleGrows(b, Pow2(i));
    a / (b * Pow2(i))
  }

  /** The quotient, as a number from zero up. */
  function Ratio(a: nat, b: nat): (x: nat)
    requires b > 0
    ensures x == a / b
  {
    Euclid(a, b);
    a / b
  }

  ghost function Remainder(a: nat, b: nat, i: nat): nat
    requires b > 0
  {
    MultipleGrows(b, Pow2(i));
    a % (b * Pow2(i))
  }

  ghost function Place(digits: nat, i: nat): nat { digits * Pow2(i) }

  /** The remainder is always right. The quotient is right exactly when it fits 32 bits: so always
      for 32-bit operands, and for 64-bit operands only when the quotient is small. */
  method Div(a: nat, b: nat, width: nat) returns (q: nat, r: nat)
    requires a < Pow2(width) && 0 < b < Pow2(width) && (width == 32 || width == 64)
    ensures r == a % b && q < TWO_32
    ensures q == a / b <==> a / b < TWO_32
    ensures Folded(Ratio(a, b), q, 0)
  {
    hide Pow2, ShiftUp, SetBit, Folded, BitSet, Divided;
    q, r := 0, a;
    var lead := Clz(b, width);
    var i: int := lead;
    DivisionStarts(a, b, lead, width);
    while i >= 0
      invariant -1 <= i <= lead && Divided(a, b, q, r, i + 1)
      decreases i
    {
      DivisionStep(a, b, q, r, i, lead, width);
      var t := ShiftUp(b, i, width);
      if t <= r {
        q := SetBit(q, i);
        r := r - t;
      }
      i := i - 1;
    }
    DivisionEnds(a, b, q, r);
  }

  /** What q and r hold when the places from i upwards are done. */
  ghost predicate Divided(a: nat, b: nat, q: nat, r: nat, i: nat)
    requires b > 0
  {
    && r == Remainder(a, b, i) && q < TWO_32 && Folded(Ratio(a, b), q, i)
    && (Place(Quotient(a, b, i), i) < TWO_32 ==> q == Place(Quotient(a, b, i), i))
  }

  lemma DivisionStarts(a: nat, b: nat, lead: nat, width: nat)
    requires a < Pow2(width) && b > 0 && width >= 1 && Pow2(width - 1) <= b * Pow2(lead)
    ensures Divided(a, b, 0, a, lead + 1)
  {
    hide Pow2, Quotient, Remainder, Place, Folded;
    FirstStep(a, b, lead, width);
    NothingFolded(a, b, lead);
  }

  lemma DivisionStep(a: nat, b: nat, q: nat, r: nat, i: nat, lead: nat, width: nat)
    requires b > 0 && Divided(a, b, q, r, i + 1) && i <= lead < 64 && b * Pow2(lead) < Pow2(width)
    ensures var t := ShiftUp(b, i, width);
            Divided(a, b, if t <= r then SetBit(q, i) else q, if t <= r then r - t else r, i)
  {
    hide Pow2, Quotient, Remainder, Place, ShiftUp, SetBit, Folded, BitSet, Ratio;
    var x, t := Ratio(a, b), ShiftUp(b, i, width);
    ShiftedDivisor(a, b, i, lead, width);
    QuotientStep(q, Quotient(a, b, i + 1), if t <= r then 1 else 0, i);
    FoldStep(x, q, i);
  }

  /** The shifted divisor fits under the remainder exactly when the quotient has the binary digit. */
  lemma ShiftedDivisor(a: nat, b: nat, i: nat, lead: nat, width: nat)
    requires b > 0 && i <= lead && b * Pow2(lead) < Pow2(width)
    ensures var t, r := ShiftUp(b, i, width), Remainder(a, b, i + 1);
            && Remainder(a, b, i) == (if t <= r then r - t else r)
            && Quotient(a, b, i) == 2 * Quotient(a, b, i + 1) + (if t <= r then 1 else 0)
            && (BitSet(Ratio(a, b), i) <==> t <= r)
  {
    hide Pow2, Quotient, Remainder, ShiftUp, BitSet;
    NoOverflow(b, i, lead, width);
    DigitStep(a, b, i);
    QuotientBit(a, b, i);
  }

  lemma DivisionEnds(a: nat, b: nat, q: nat, r: nat)
    requires b > 0 && Divided(a, b, q, r, 0)
    ensures r == a % b && q < TWO_32 && (q == a / b <==> a / b < TWO_32) && Folded(Ratio(a, b), q, 0)
  {
    hide Quotient, Remainder, Place, Folded;
    LastStep(a, b);
  }

  /** Bit j of q is set when bit j or bit j + 32 of x is, of the bits from a place upwards. */
  ghost predicate Folded(x: nat, q: nat, from: int) { forall j: nat | j < 32 :: FoldedBit(x, q, from, j) }

  ghost predicate FoldedBit(x: nat, q: nat, from: int, j: nat) {
    BitSet(q, j) <==> (j >= from && BitSet(x, j)) || (j + 32 >= from && BitSet(x, j + 32))
  }

  /** 2^32 divided by 1: the wanted quotient has bit 32 only, the one returned is odd. */
  lemma QuotientIsCut(q: nat)
    requires q < TWO_32 && Folded(Ratio(TWO_32, 1), q, 0)
    ensures q % 2 == 1 && q != TWO_32 / 1
  {
    Pow2Of32();
    assert BitSet(TWO_32, 32);
    assert FoldedBit(Ratio(TWO_32, 1), q, 0, 0);
    assert Pow2(0) == 1 && BitSet(q, 0);
  }

  lemma HighBitsClear(x: nat, k: nat, n: nat)
    requires x < Pow2(k) && k <= n
    ensures !BitSet(x, n)
  {
    Pow2Monotone(k, n);
    QuotientZero(x, Pow2(n));
  }

  lemma NothingFolded(a: nat, b: nat, lead: nat)
    requires b > 0 && Place(Quotient(a, b, lead + 1), lead + 1) == 0
    ensures Folded(Ratio(a, b), 0, lead + 1)
  {
    var x, p := Ratio(a, b), Pow2(lead + 1);
    MultipleGrows(Quotient(a, b, lead + 1), p);
    D.DivideTwice(a, b, p);
    assert x / p == 0;
    QuotientZero(x, p);
    hide Pow2, Quotient, Place, FoldedBit;
    var from := lead + 1;
    forall j: nat | j < 32 ensures FoldedBit(x, 0, from, j) { NothingFoldedAt(x, from, j); }
  }

  lemma NothingFoldedAt(x: nat, from: nat, j: nat)
    requires x < Pow2(from)
    ensures FoldedBit(x, 0, from, j)
  {
    hide BitSet;
    assert Pow2(0) >= 1;
    HighBitsClear(0, 0, j);
    if j >= from { HighBitsClear(x, from, j); }
    if j + 32 >= from { HighBitsClear(x, from, j + 32); }
  }

  lemma QuotientBit(a: nat, b: nat, i: nat)
    requires b > 0
    ensures BitSet(Ratio(a, b), i) <==> b * Pow2(i) <= Remainder(a, b, i + 1)
  {
    DigitStep(a, b, i);
    D.DivideTwice(a, b, Pow2(i));
    hide Remainder;
  }

  lemma FoldStep(x: nat, q: nat, i: nat)
    requires i < 64 && Folded(x, q, i + 1)
    ensures Folded(x, if BitSet(x, i) then SetBit(q, i) else q, i)
  {
    hide BitSet, Pow2, FoldedBit, SetBit;
    var q' := if BitSet(x, i) then SetBit(q, i) else q;
    forall j: nat | j < 32 ensures FoldedBit(x, q', i, j) {
      assert FoldedBit(x, q, i + 1, j);
      FoldStepAt(x, q, i, j);
    }
  }

  lemma FoldStepAt(x: nat, q: nat, i: nat, j: nat)
    requires i < 64 && j < 32 && FoldedBit(x, q, i + 1, j)
    ensures FoldedBit(x, if BitSet(x, i) then SetBit(q, i) else q, i, j)
  {
    hide BitSet, Pow2;
    assert i % 32 == if i < 32 then i else i - 32;
    if !BitSet(q, i % 32) { BitOfSum(q, i % 32, j); }
  }

  /** Adding a power of two whose bit is clear sets that bit and no other. */
  lemma BitOfSum(q: nat, m: nat, j: nat)
    requires !BitSet(q, m)
    ensures BitSet(q + Pow2(m), j) <==> BitSet(q, j) || j == m
  {
    hide BitSet, Pow2;
    if j == m {
      OwnBit(q, m);
    } else if j < m {
      LowerBit(q, m, j);
    } else {
      UpperBit(q, m, j);
    }
  }

  lemma OwnBit(q: nat, m: nat)
    requires !BitSet(q, m)
    ensures BitSet(q + Pow2(m), m)
  {
    hide Pow2;
    var p := Pow2(m);
    Euclid(q, p);
    NextQuotient(q, p, q / p, q % p);
    NextIsOdd(q / p);
  }

  lemma NextQuotient(q: nat, p: nat, h: nat, l: nat)
    requires q == h * p + l && l < p
    ensures (q + p) / p == h + 1
  {
    Distribute(h, 1, p);
    QuotientUnique(q + p, p, h + 1, l);
  }

  lemma NextIsOdd(h: nat)
    requires h % 2 != 1
    ensures (h + 1) % 2 == 1
  {
  }

  lemma LowerBit(q: nat, m: nat, j: nat)
    requires j < m
    ensures BitSet(q + Pow2(m), j) <==> BitSet(q, j)
  {
    var p, s := Pow2(j), Pow2(m - j - 1);
    Euclid(q, p);
    Pow2Add(m - j, j);
    Distribute(q / p, 2 * s, p);
    QuotientUnique(q + Pow2(m), p, q / p + 2 * s, q % p);
    SameParity(q / p, s);
  }

  lemma SameParity(x: nat, s: nat)
    ensures (x + 2 * s) % 2 == x % 2
  {
  }

  lemma UpperBit(q: nat, m: nat, j: nat)
    requires m < j && !BitSet(q, m)
    ensures BitSet(q + Pow2(m), j) <==> BitSet(q, j)
  {
    var p, h, l := Pow2(m), q / Pow2(m), q % Pow2(m);
    Euclid(q, p);
    EvenHalf(h);
    Doubled(h / 2, p);
    assert (2 * (h / 2)) * p == 2 * ((h / 2) * p);
    QuotientUnique(q, 2 * p, h / 2, l);
    QuotientUnique(q + p, 2 * p, h / 2, l + p);
    Pow2Add(m + 1, j - m - 1);
    D.DivideTwice(q, 2 * p, Pow2(j - m - 1));
    D.DivideTwice(q + p, 2 * p, Pow2(j - m - 1));
  }

  lemma FirstStep(a: nat, b: nat, lead: nat, width: nat)
    requires a < Pow2(width) && b > 0 && width >= 1 && Pow2(width - 1) <= b * Pow2(lead)
    ensures Remainder(a, b, lead + 1) == a && Place(Quotient(a, b, lead + 1), lead + 1) == 0
  {
    Doubled(b, Pow2(lead));
    var d := b * Pow2(lead + 1);
    assert a < d;
    QuotientUnique(a, d, 0, a);
  }

  lemma LastStep(a: nat, b: nat)
    requires b > 0
    ensures Remainder(a, b, 0) == a % b && Place(Quotient(a, b, 0), 0) == Quotient(a, b, 0) == a / b
  {
    assert Pow2(0) == 1 && b * 1 == b;
  }

  lemma NoOverflow(b: nat, i: nat, lead: nat, width: nat)
    requires i <= lead && b * Pow2(lead) < Pow2(width)
    ensures ShiftUp(b, i, width) == b * Pow2(i)
  {
    Pow2Monotone(i, lead);
    Scaled(b, Pow2(i), Pow2(lead));
    SmallModulus(b * Pow2(i), Pow2(width));
  }

  lemma Scaled(b: nat, x: nat, y: nat)
    requires x <= y
    ensures b * x <= b * y
  {
  }

  /** One more binary digit of the quotient. */
  lemma DigitStep(a: nat, b: nat, i: nat)
    requires b > 0
    ensures var d, r := b * Pow2(i), Remainder(a, b, i + 1);
            && Remainder(a, b, i) == (if d <= r then r - d else r)
            && Quotient(a, b, i) == 2 * Quotient(a, b, i + 1) + (if d <= r then 1 else 0)
  {
    Doubled(b, Pow2(i));
    MultipleGrows(b, Pow2(i));
    var d: nat := b * Pow2(i);
    assert b * Pow2(i + 1) == 2 * d;
    HalvedStep(a, d);
  }

  lemma HalvedStep(a: nat, d: nat)
    requires d > 0
    ensures var r := a % (2 * d);
            && a % d == (if d <= r then r - d else r)
            && a / d == 2 * (a / (2 * d)) + (if d <= r then 1 else 0)
  {
    var q, r := a / (2 * d), a % (2 * d);
    assert a == q * (2 * d) + r;
    Doubled(q, d);
    Doubled(d, q);
    if d <= r {
      assert (2 * q + 1) * d == 2 * (q * d) + d;
      QuotientUnique(a, d, 2 * q + 1, r - d);
    } else {
      assert (2 * q) * d == 2 * (q * d);
      QuotientUnique(a, d, 2 * q, r);
    }
  }

  lemma QuotientStep(q: nat, digits: nat, digit: nat, i: nat)
    requires q < TWO_32 && digit <= 1 && (Place(digits, i + 1) < TWO_32 ==> q == Place(digits, i + 1))
    ensures var q' := if digit == 1 then SetBit(q, i) else q;
            q' < TWO_32 && (Place(2 * digits + digit, i) < TWO_32 ==> q' == Place(2 * digits + digit, i))
  {
    hide Pow2, Place, BitSet;
    SetBitBound(q, i % 32);
    PlaceStep(digits, digit, i);
    if Place(2 * digits + digit, i) < TWO_32 && digit == 1 {
      PowBelow32(i);
      EvenBit(q, digits, i);
    }
  }

  lemma PlaceStep(digits: nat, digit: nat, i: nat)
    requires digit <= 1
    ensures Place(2 * digits + digit, i) == Place(digits, i + 1) + if digit == 1 then Pow2(i) else 0
  {
    Doubled(digits, Pow2(i));
    Distribute(2 * digits, digit, Pow2(i));
    assert (2 * digits) * Pow2(i) == 2 * (digits * Pow2(i));
  }

  lemma Distribute(a: nat, b: nat, c: nat)
    ensures (a + b) * c == a * c + b * c
  {
  }

  lemma EvenBit(q: nat, digits: nat, i: nat)
    requires q == Place(digits, i + 1)
    ensures !BitSet(q, i)
  {
    var p := Pow2(i);
    Doubled(digits, p);
    assert (2 * digits) * p == 2 * (digits * p);
    QuotientUnique(q, p, 2 * digits, 0);
  }

  lemma PowBelow32(i: nat)
    requires Pow2(i) < TWO_32
    ensures i < 32
  {
    if i >= 32 {
      Pow2Monotone(32, i);
      Pow2Of32();
    }
  }

  lemma SetBitBound(q: nat, k: nat)
    requires q < TWO_32 && k < 32
    ensures !BitSet(q, k) ==> q + Pow2(k) < TWO_32
  {
    hide Pow2;
    if !BitSet(q, k) {
      var x := q / Pow2(k);
      PowersTo32(k);
      EvenHalf(x);
      Euclid(q, Pow2(k));
      BelowEven(q, Pow2(k), x / 2, Pow2(31 - k));
    }
  }

  lemma EvenHalf(x: nat)
    requires x % 2 != 1
    ensures x == 2 * (x / 2)
  {
  }

  lemma PowersTo32(k: nat)
    requires k < 32
    ensures (2 * Pow2(31 - k)) * Pow2(k) == TWO_32
  {
    Pow2Of32();
    Pow2Add(32 - k, k);
  }

  lemma BelowEven(q: nat, p: nat, h: nat, s: nat)
    requires p > 0 && q < (2 * s) * p && q == (2 * h) * p + q % p
    ensures q + p < (2 * s) * p
  {
    assert (2 * h) * p < (2 * s) * p;
    ProductOrder(2 * h, 2 * s, p);
    ProductMonotone(2 * h + 2, 2 * s, p);
    Distribute(2 * h, 2, p);
  }

  lemma ProductMonotone(a: nat, b: nat, c: nat)
    requires a <= b
    ensures a * c <= b * c
  {
    MultipleGrows(b - a, if c > 0 then c else 1);
    assert (b - a) * c == b * c - a * c;
  }
}
