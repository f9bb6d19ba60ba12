/** Fixed-width machine words, and the few arithmetic facts the rest of the project shares. */
module Words {

  const TWO_31: int := 0x8000_0000
  const TWO_32: int := 0x1_0000_0000
  const TWO_64: int := 0x1_0000_0000_0000_0000

  type Byte = x: int | 0 <= x < 0x100
  type Half = x: int | 0 <= x < 0x1_0000
  type Word = x: int | 0 <= x < 0x1_0000_0000
  type DWord = x: int | 0 <= x < 0x1_0000_0000_0000_0000

  /** Truncation of any integer to 32 bits. */
  function ToWord(x: int): Word {
    x % 0x1_0000_0000
  }

  /** 32-bit addition. */
  function Plus(w: Word, n: Word): Word {
    var x: int := w + n;
    if x < 0x1_0000_0000 then x else x - 0x1_0000_0000
  }

  /** Two's-complement reading of a 32-bit word. */
  function Signed(w: Word): (s: int)
    ensures -0x8000_0000 <= s < 0x8000_0000
    ensures ToWord(s) == w
  {
    if w < 0x8000_0000 then w else w - 0x1_0000_0000
  }

  /** `~w + 1` on 32 bits. */
  function Negate(w: Word): Word {
    ToWord(0x1_0000_0000 - w)
  }

  function Pow2(k: nat): (p: nat)
    ensures p >= 1
  {
    if k == 0 then 1 else 2 * Pow2(k - 1)
  }

  lemma {:induction false} Pow2Monotone(a: nat, b: nat)
    requires a <= b
    ensures Pow2(a) <= Pow2(b)
  {
    if a == b {
    } else {
      Pow2Monotone(a, b - 1);
    }
  }

  /** Bit k of a number. */
  predicate BitSet(x: nat, k: nat) { (x / Pow2(k)) % 2 == 1 }

  /** Number of binary digits, so that 0 has none. */
  function BitLength(x: nat): (n: nat)
    ensures x == 0 <==> n == 0
  {
    if x == 0 then 0 else 1 + BitLength(x / 2)
  }

  lemma {:induction false} BitLengthBound(x: nat, k: nat)
    requires x < Pow2(k)
    ensures BitLength(x) <= k
  {
    if x == 0 {
    } else {
      BitLengthBound(x / 2, k - 1);
    }
  }

  lemma Pow2Of32()
    ensures Pow2(8) == 0x100 && Pow2(16) == 0x1_0000 && Pow2(32) == 0x1_0000_0000
  {
    Pow2Add(8, 8);
    Pow2Add(16, 16);
  }

  lemma {:induction false} Pow2Add(a: nat, b: nat)
    ensures Pow2(a + b) == Pow2(a) * Pow2(b)
  {
    if b == 0 {
    } else {
      Pow2Add(a, b - 1);
      assert Pow2(a) * (2 * Pow2(b - 1)) == 2 * (Pow2(a) * Pow2(b - 1));
    }
  }

  lemma MultipleGrows(k: int, d: int)
    requires d > 0
    ensures k >= 1 ==> k * d >= d
    ensures k <= -1 ==> k * d <= -d
  {
    if k >= 1 {
      assert k * d == (k - 1) * d + d;
    } else if k <= -1 {
      assert k * d == (k + 1) * d - d;
    }
  }

  /** The quotient and remainder of n by d are the only q and r with n == q * d + r and r < d. */
  lemma QuotientUnique(n: nat, d: nat, q: nat, r: nat)
    requires d > 0 && n == q * d + r && r < d
    ensures q == n / d && r == n % d
  {
    var k: int := q - n / d;
    MultipleGrows(k, d);
    assert k * d == q * d - (n / d) * d;
    assert n == (n / d) * d + n % d;
  }

  lemma Euclid(n: nat, d: nat)
    requires d > 0
    ensures n == (n / d) * d + n % d && 0 <= n % d < d && n / d >= 0
  {
  }

  lemma SmallModulus(x: nat, d: nat)
    requires x < d
    ensures x % d == x
  {
  }

  datatype Option<T> = None | Some(value: T)

  ghost predicate Sorted(s: seq<int>) {
    forall i, j :: 0 <= i < j < |s| ==> s[i] <= s[j]
  }
}
