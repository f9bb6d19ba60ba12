/** What the operations that core and simulator have in common compute: each is pinned to the bits,
    bytes and numbers of its operands, so that the two agreeing means that both are right
    (rtl/core/fu/alu.sv:22-41, sim/trace.cc:895-917, sim/rtl.cc:172-223). */
module Operations {
  import opened Words
  import opened Rv32
  import D = Digits
  import I = Isa
  import M = Mdu

  // ---------------------------------------------------------------------------
  // Bits
  // ---------------------------------------------------------------------------

  lemma LowestBit(x: nat)
    ensures BitSet(x, 0) <==> x % 2 == 1
  {
    assert Pow2(0) == 1 && x / 1 == x;
  }

  lemma HigherBit(x: nat, k: nat)
    requires k > 0
    ensures BitSet(x, k) <==> BitSet(x / 2, k - 1)
  {
    D.DivideTwice(x, 2, Pow2(k - 1));
  }

  lemma GateStep(g: Gate, a: nat, b: nat, width: nat)
    requires width > 0
    ensures var r := Bitwise(g, a, b, width);
            && r % 2 == GateBit(g, a % 2 == 1, b % 2 == 1) && r / 2 == Bitwise(g, a / 2, b / 2, width - 1)
  {
  }

  lemma {:induction false} GateBits(g: Gate, a: nat, b: nat, width: nat, k: nat)
    requires k < width
    ensures BitSet(Bitwise(g, a, b, width), k) <==> GateBit(g, BitSet(a, k), BitSet(b, k)) == 1
  {
    hide BitSet, Bitwise, GateBit;
    var r := Bitwise(g, a, b, width);
    GateStep(g, a, b, width);
    if k == 0 {
      LowestBit(a);
      LowestBit(b);
      LowestBit(r);
    } else {
      GateBits(g, a / 2, b / 2, width - 1, k - 1);
      HigherBit(a, k);
      HigherBit(b, k);
      HigherBit(r, k);
    }
  }

  lemma GatedBit(g: Gate, a: Word, b: Word, k: nat)
    requires k < 32
    ensures BitSet(Gated(g, a, b), k) <==> GateBit(g, BitSet(a, k), BitSet(b, k)) == 1
  {
    hide BitSet, Bitwise, GateBit, Pow2;
    GateBits(g, a, b, 32, k);
  }

  /** The gates work bit by bit. */
  lemma GatesCompute(a: Word, b: Word, k: nat)
    requires k < 32
    ensures BitSet(Alu(I.AND, a, b), k) <==> BitSet(a, k) && BitSet(b, k)
    ensures BitSet(Alu(I.OR, a, b), k) <==> BitSet(a, k) || BitSet(b, k)
    ensures BitSet(Alu(I.XOR, a, b), k) <==> BitSet(a, k) != BitSet(b, k)
  {
    hide BitSet, Gated;
    GatedBit(AndGate, a, b, k);
    GatedBit(OrGate, a, b, k);
    GatedBit(XorGate, a, b, k);
  }

  // ---------------------------------------------------------------------------
  // Shifts
  // ---------------------------------------------------------------------------

  /** The quotient rounded down. */
  lemma Floor(x: int, p: int)
    requires p > 0
    ensures (x / p) * p <= x < (x / p + 1) * p
  {
    assert x == (x / p) * p + x % p;
    assert (x / p + 1) * p == (x / p) * p + p;
  }

  lemma FloorBounds(x: int, p: int, low: int, high: int)
    requires p > 0 && low <= 0 <= high && low <= x <= high
    ensures low <= x / p <= high
  {
    Floor(x, p);
    MultipleGrows(x / p, p);
    if x / p < low {
      ScaledOrder(x / p + 1, low, p);
      ScaledOrder(low, 0, p - 1);
    }
    if x / p > high {
      ScaledOrder(high + 1, x / p, p);
      ScaledOrder(0, high, p - 1);
    }
  }

  lemma ScaledOrder(a: int, b: int, p: int)
    requires a <= b && p >= 0
    ensures a * p <= b * p
  {
  }

  lemma SignedOfWord(x: int)
    requires -0x8000_0000 <= x < 0x8000_0000
    ensures Signed(ToWord(x)) == x
  {
  }

  /** The right shifts divide by a power of two and round down, one the unsigned number and one the
      signed one. */
  lemma RightShiftsCompute(a: Word, n: Word)
    ensures var p, r := Pow2(n % 32), Alu(I.SRL, a, n); r * p <= a < (r + 1) * p
    ensures var p, r := Pow2(n % 32), Signed(Alu(I.SRA, a, n)); r * p <= Signed(a) < (r + 1) * p
  {
    var p := Pow2(n % 32);
    hide Pow2;
    Floor(a, p);
    Floor(Signed(a), p);
    FloorBounds(Signed(a), p, -0x8000_0000, 0x7fff_ffff);
    SignedOfWord(Signed(a) / p);
  }

  lemma {:induction false} BitsOfMultiple(x: nat, s: nat, k: nat)
    ensures BitSet(x * Pow2(s), k) <==> k >= s && BitSet(x, k - s)
  {
    hide BitSet;
    if s == 0 {
      assert x * Pow2(0) == x;
    } else {
      var half := x * Pow2(s - 1);
      TwiceMultiple(x, Pow2(s - 1));
      EvenNumber(half);
      if k == 0 {
        LowestBit(2 * half);
      } else {
        HigherBit(2 * half, k);
        BitsOfMultiple(x, s - 1, k - 1);
      }
    }
  }

  lemma TwiceMultiple(x: nat, p: nat)
    ensures x * (2 * p) == 2 * (x * p)
  {
  }

  lemma EvenNumber(h: nat)
    ensures (2 * h) % 2 == 0 && (2 * h) / 2 == h
  {
  }

  lemma {:induction false} BitsOfRemainder(x: nat, w: nat, k: nat)
    requires k < w
    ensures BitSet(x % Pow2(w), k) <==> BitSet(x, k)
  {
    hide BitSet;
    var q, r := x / Pow2(w), x % Pow2(w);
    Euclid(x, Pow2(w));
    Halves(x, q, r, Pow2(w - 1));
    if k == 0 {
      LowestBit(x);
      LowestBit(r);
    } else {
      HigherBit(x, k);
      HigherBit(r, k);
      BitsOfRemainder(x / 2, w - 1, k - 1);
    }
  }

  /** Halving commutes with taking the remainder by an even number. */
  lemma Halves(x: nat, q: nat, r: nat, p: nat)
    requires p > 0 && x == q * (2 * p) + r && r < 2 * p
    ensures r % 2 == x % 2 && (x / 2) % p == r / 2
  {
    TwiceMultiple(q, p);
    assert x == 2 * (q * p) + r;
    Parity(q * p, r);
    QuotientUnique(x / 2, p, q, r / 2);
  }

  lemma Parity(h: nat, r: nat)
    ensures (2 * h + r) % 2 == r % 2 && (2 * h + r) / 2 == h + r / 2
  {
  }

  /** The left shift moves every bit up. */
  lemma LeftShiftComputes(a: Word, n: Word, k: nat)
    requires k < 32
    ensures BitSet(Alu(I.SLL, a, n), k) <==> k >= n % 32 && BitSet(a, k - n % 32)
  {
    hide BitSet;
    Pow2Of32();
    hide Pow2;
    BitsOfRemainder(a * Pow2(n % 32), 32, k);
    BitsOfMultiple(a, n % 32, k);
  }

  // ---------------------------------------------------------------------------
  // Sums and comparisons
  // ---------------------------------------------------------------------------

  /** Sums wrap at 2^32; the upper immediate is the low 20 bits of the operand moved up by 12. */
  lemma SumsCompute(a: Word, b: Word)
    ensures var r := Alu(I.ADD, a, b); r == a + b || r == a + b - 0x1_0000_0000
    ensures var r := Alu(I.SUB, a, b); r == a - b || r == a - b + 0x1_0000_0000
    ensures var r, u := Alu(I.LUI, a, b), (b % 0x10_0000) * 0x1000; r == a + u || r == a + u - 0x1_0000_0000
  {
  }

  /** The sign is bit 31. */
  predicate Negative(a: Word) { a >= 0x8000_0000 }

  lemma ComparisonsCompute(a: Word, b: Word)
    ensures Alu(I.SLT, a, b) == if (Negative(a) && !Negative(b)) || (Negative(a) == Negative(b) && a < b) then 1 else 0
    ensures Alu(I.SLTU, a, b) == if a < b then 1 else 0
    ensures I.Condition(I.BLT, a, b) <==> (Negative(a) && !Negative(b)) || (Negative(a) == Negative(b) && a < b)
    ensures (I.Condition(I.BEQ, a, b) <==> a == b) && (I.Condition(I.BLTU, a, b) <==> a < b)
  {
  }

  // ---------------------------------------------------------------------------
  // Memory
  // ---------------------------------------------------------------------------

  /** The address i bytes on. */
  function At(addr: Word, i: nat): Word { (addr + i) % 0x1_0000_0000 }

  function LittleEndian(mem: I.Mem, addr: Word, n: nat): nat
    decreases n
  {
    if n == 0 then 0 else mem(addr) + 0x100 * LittleEndian(mem, At(addr, 1), n - 1)
  }

  lemma AtPlus(addr: Word, i: nat)
    requires i < 8
    ensures At(addr, i) == Plus(addr, i) && At(At(addr, 1), i) == At(addr, i + 1)
  {
  }

  lemma ThreeBytes(mem: I.Mem, addr: Word)
    ensures LittleEndian(mem, addr, 1) == mem(addr)
    ensures LittleEndian(mem, addr, 2) == mem(addr) + 0x100 * mem(At(addr, 1))
    ensures LittleEndian(mem, addr, 3) == mem(addr) + 0x100 * mem(At(addr, 1)) + 0x1_0000 * mem(At(At(addr, 1), 1))
  {
    assert LittleEndian(mem, At(addr, 1), 1) == mem(At(addr, 1)) + 0x100 * LittleEndian(mem, At(At(addr, 1), 1), 0);
    assert LittleEndian(mem, At(At(addr, 1), 1), 1) ==
           mem(At(At(addr, 1), 1)) + 0x100 * LittleEndian(mem, At(At(At(addr, 1), 1), 1), 0);
    assert LittleEndian(mem, At(addr, 1), 2) == mem(At(addr, 1)) + 0x100 * LittleEndian(mem, At(At(addr, 1), 1), 1);
    hide At;
  }

  /** An unsigned load is the little-endian number in its bytes. */
  lemma LoadIsLittleEndian(mem: I.Mem, size: nat, addr: Word)
    requires size <= 2
    ensures I.Load(mem, I.LDU, size, addr) == LittleEndian(mem, addr, Pow2(size))
  {
    Widths();
    AtPlus(addr, 1);
    AtPlus(addr, 2);
    AtPlus(addr, 3);
    ThreeBytes(mem, addr);
    ThreeBytes(mem, At(addr, 1));
    assert LittleEndian(mem, addr, 4) == mem(addr) + 0x100 * LittleEndian(mem, At(addr, 1), 3);
    hide LittleEndian, At, Pow2;
  }

  lemma Widths()
    ensures Pow2(0) == 1 && Pow2(1) == 2 && Pow2(2) == 4
  {
  }

  /** Values of an access of 2^size bytes. */
  function Range(size: nat): int { if size == 0 then 0x100 else if size == 1 then 0x1_0000 else 0x1_0000_0000 }

  lemma LoadBelow(mem: I.Mem, size: nat, addr: Word)
    requires size <= 2
    ensures 0 <= I.Load(mem, I.LDU, size, addr) < Range(size)
  {
  }

  /** A signed load is the signed number of that width with the same bits. */
  lemma LoadExtendsSign(mem: I.Mem, size: nat, addr: Word)
    requires size <= 2
    ensures var s, u := Signed(I.Load(mem, I.LD, size, addr)), I.Load(mem, I.LDU, size, addr);
            && 0 <= u < Range(size) && -Range(size) <= 2 * s < Range(size) && (s == u || s == u - Range(size))
  {
    LoadBelow(mem, size, addr);
    hide I.LoadUnsigned;
  }

  lemma StoreBytes(mem: I.Mem, size: nat, addr: Word, v: Word)
    requires size <= 2
    ensures var after := I.Store(mem, size, addr, v);
            && after(addr) == v % 0x100
            && (size >= 1 ==> after(Plus(addr, 1)) == v / 0x100 % 0x100)
            && (size == 2 ==> after(Plus(addr, 2)) == v / 0x1_0000 % 0x100 && after(Plus(addr, 3)) == v / 0x100_0000)
  {
    DistinctBytes(addr);
    assert I.ByteOf(v, 0) == v % 0x100 && I.ByteOf(v, 1) == v / 0x100 % 0x100;
    assert I.ByteOf(v, 2) == v / 0x1_0000 % 0x100 && I.ByteOf(v, 3) == v / 0x100_0000;
    hide Plus, I.ByteOf;
  }

  lemma DistinctBytes(addr: Word)
    ensures addr != Plus(addr, 1) && addr != Plus(addr, 2) && addr != Plus(addr, 3)
    ensures Plus(addr, 1) != Plus(addr, 2) && Plus(addr, 1) != Plus(addr, 3) && Plus(addr, 2) != Plus(addr, 3)
  {
  }

  lemma BytesOfWord(v: Word)
    ensures v % 0x100 + 0x100 * (v / 0x100 % 0x100) == v % 0x1_0000
    ensures v == v % 0x100 + 0x100 * (v / 0x100 % 0x100) + 0x1_0000 * (v / 0x1_0000 % 0x100)
                 + 0x100_0000 * (v / 0x100_0000)
  {
    var b0, r0 := v % 0x100, v / 0x100;
    var b1, r1 := r0 % 0x100, r0 / 0x100;
    assert v == 0x1_0000 * r1 + (0x100 * b1 + b0);
    QuotientUnique(v, 0x1_0000, r1, 0x100 * b1 + b0);
    var b2, r2 := r1 % 0x100, r1 / 0x100;
    assert v == 0x100_0000 * r2 + (0x1_0000 * b2 + 0x100 * b1 + b0);
    QuotientUnique(v, 0x100_0000, r2, 0x1_0000 * b2 + 0x100 * b1 + b0);
  }

  lemma OtherByte(mem: I.Mem, size: nat, addr: Word, v: Word, x: Word)
    requires size <= 2 && forall i: nat | i < Pow2(size) :: x != At(addr, i)
    ensures I.Store(mem, size, addr, v)(x) == mem(x)
  {
    Widths();
    AtPlus(addr, 0);
    AtPlus(addr, 1);
    AtPlus(addr, 2);
    AtPlus(addr, 3);
    hide At, Pow2;
    assert x != At(addr, 0);
    if size >= 1 { assert x != At(addr, 1); }
    if size == 2 { assert x != At(addr, 2) && x != At(addr, 3); }
  }

  /** What a store has put at an address is loaded from there, and no other byte has changed. */
  lemma LoadAfterStore(mem: I.Mem, size: nat, addr: Word, v: Word)
    requires size <= 2
    ensures I.Load(I.Store(mem, size, addr, v), I.LDU, size, addr) == v % Range(size)
    ensures forall x: Word | (forall i: nat | i < Pow2(size) :: x != At(addr, i)) ::
              I.Store(mem, size, addr, v)(x) == mem(x)
  {
    LoadBack(mem, size, addr, v);
    hide I.Load, I.Store, At, Pow2;
    forall x: Word | (forall i: nat | i < Pow2(size) :: x != At(addr, i))
      ensures I.Store(mem, size, addr, v)(x) == mem(x)
    {
      OtherByte(mem, size, addr, v, x);
    }
  }

  lemma LoadBack(mem: I.Mem, size: nat, addr: Word, v: Word)
    requires size <= 2
    ensures I.Load(I.Store(mem, size, addr, v), I.LDU, size, addr) == v % Range(size)
  {
    StoreBytes(mem, size, addr, v);
    BytesOfWord(v);
    hide I.Store, Plus;
  }

  /** The memory port shows the address, the width and the low bytes of a store, and nothing for an
      access it does not know. */
  lemma PortShowsStore(size: nat, addr: Word, v: Word)
    ensures size <= 2 ==> I.PortWrite(size, addr, v) == [I.StoreEvent(addr, size, v % Range(size))]
    ensures size > 2 ==> I.PortWrite(size, addr, v) == []
  {
  }

  /** An access is aligned when its address is a multiple of its width. */
  lemma AlignedIsMultiple(size: nat, addr: Word)
    requires size <= 3
    ensures !I.Misaligned(size, addr) <==> exists k: nat :: addr == k * Pow2(size)
  {
    assert Pow2(0) == 1 && Pow2(1) == 2 && Pow2(2) == 4 && Pow2(3) == 8;
    var p := Pow2(size);
    Euclid(addr, p);
    if !I.Misaligned(size, addr) { assert addr == (addr / p) * p; }
    if k: nat :| addr == k * p { QuotientUnique(addr, p, k, 0); }
  }

  // ---------------------------------------------------------------------------
  // Function codes of multiplication and division
  // ---------------------------------------------------------------------------

  /** A word as a signed or as an unsigned number. */
  function Reading(signed: bool, w: Word): int { if signed then Signed(w) else w }

  /** Codes 0 to 3 are the low and the three high words of a product: both factors signed, the first
      one, or none. */
  lemma ProductCodes(x: Word, y: Word)
    ensures M.Rv32M(MulOp(0), x, y) == (x * y) % 0x1_0000_0000
    ensures M.Rv32M(MulOp(1), x, y) == (Reading(true, x) * Reading(true, y) / 0x1_0000_0000) % 0x1_0000_0000
    ensures M.Rv32M(MulOp(2), x, y) == (Reading(true, x) * Reading(false, y) / 0x1_0000_0000) % 0x1_0000_0000
    ensures M.Rv32M(MulOp(3), x, y) == (Reading(false, x) * Reading(false, y) / 0x1_0000_0000) % 0x1_0000_0000
  {
  }

  /** Codes 4 and 5 are the signed and the unsigned quotient, 6 and 7 the remainders that belong to
      them: rounded toward zero, with the one overflow and the zero divisor. */
  lemma DivisionCodes(x: Word, y: Word, signed: bool)
    ensures var quotient := M.Rv32M(MulOp(if signed then 4 else 5), x, y);
            var remainder := M.Rv32M(MulOp(if signed then 6 else 7), x, y);
            var a, b := Reading(signed, x), Reading(signed, y);
            var q, r := Reading(signed, quotient), Reading(signed, remainder);
            if y == 0 then quotient == 0xffff_ffff && remainder == x
            else if a == -0x8000_0000 && b == -1 then q == a && r == 0
            else q * b + r == a && M.Magnitude(r) < M.Magnitude(b) && (r == 0 || (r < 0 <==> a < 0))
  {
    hide M.TruncDiv, M.TruncRem;
    assert MulOp(4) == M.DIV && MulOp(5) == M.DIVU && MulOp(6) == M.REM && MulOp(7) == M.REMU;
    hide MulOp;
    if y != 0 && signed {
      var q, r := M.TruncDiv(Signed(x), Signed(y)), M.TruncRem(Signed(x), Signed(y));
      SignedDivision(Signed(x), Signed(y));
      SignedOfWord(r);
      if q < 0x8000_0000 { SignedOfWord(q); }
    } else if y != 0 {
      Euclid(x, y);
    }
  }

  lemma SignedDivision(a: int, b: int)
    requires -0x8000_0000 <= a < 0x8000_0000 && -0x8000_0000 <= b < 0x8000_0000 && b != 0
    ensures var q, r := M.TruncDiv(a, b), M.TruncRem(a, b);
            && q * b + r == a && M.Magnitude(r) < M.Magnitude(b) && (r == 0 || (r < 0 <==> a < 0))
            && -0x8000_0000 <= r < 0x8000_0000 && -0x8000_0000 <= q <= 0x8000_0000
            && (q == 0x8000_0000 <==> a == -0x8000_0000 && b == -1)
  {
    var m, n := M.Magnitude(a), M.Magnitude(b);
    Euclid(m, n);
    QuotientSmall(m, n);
    Signs(m / n, n);
  }

  lemma QuotientSmall(m: nat, n: nat)
    requires n > 0
    ensures m / n <= m && (n > 1 && m > 0 ==> m / n < m) && (n == 1 ==> m / n == m)
  {
    Euclid(m, n);
    MultipleGrows(m / n, n);
    if m / n > 0 && n > 1 {
      MultipleGrows(n - 1, m / n);
      assert (m / n) * n == (n - 1) * (m / n) + m / n;
    }
    if n == 1 { assert (m / n) * 1 == m / n; }
  }

  lemma Signs(q: int, n: int)
    ensures (-q) * (-n) == q * n && (-q) * n == -(q * n) && q * (-n) == -(q * n)
  {
  }

  // ---------------------------------------------------------------------------
  // Instruction lengths, targets and numbers
  // ---------------------------------------------------------------------------

  /** A half-word is an instruction of its own unless its two lowest bits are set. */
  lemma ShortBits(h: Half)
    ensures I.IsShort(h) <==> !(BitSet(h, 0) && BitSet(h, 1))
  {
    LowestBit(h);
    assert Pow2(1) == 2;
  }

  lemma NextIsBehind(pc: I.Pc)
    ensures var n := I.NextPc(pc, true); n == pc + 2 || n == pc + 2 - 0x1_0000_0000
    ensures var n := I.NextPc(pc, false); n == pc + 4 || n == pc + 4 - 0x1_0000_0000
  {
  }

  /** Jump targets lose bit 0 and nothing else. */
  lemma EvenClearsBit(w: Word)
    ensures I.Even(w) % 2 == 0 && (I.Even(w) == w || I.Even(w) == w - 1)
  {
  }
}
