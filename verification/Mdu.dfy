/** The multi-cycle multiply/divide unit of the core (rtl/core/fu/mdu.sv) and the RV32M
    arithmetic it must deliver (sections 7.1 and 7.2 of the RISC-V Unprivileged ISA). */
module Mdu {
  import opened Words

  datatype MduOp = MUL | MULH | MULHSU | MULHU | DIV | DIVU | REM | REMU

  // ---------------------------------------------------------------------------
  // The arithmetic reference: signed and unsigned integers, no machine steps
  // ---------------------------------------------------------------------------

  /** Quotient rounded toward zero. */
  function TruncDiv(x: int, y: int): int
    requires y != 0
  {
    if (x < 0) == (y < 0) then Magnitude(x) / Magnitude(y) else -(Magnitude(x) / Magnitude(y))
  }

  /** Remainder with the sign of the dividend. */
  function TruncRem(x: int, y: int): int
    requires y != 0
  {
    if x < 0 then -(Magnitude(x) % Magnitude(y)) else Magnitude(x) % Magnitude(y)
  }

  function Magnitude(x: int): nat {
    if x < 0 then -x else x
  }

  /** The result RV32M prescribes for each operation. */
  function Rv32M(op: MduOp, a: Word, b: Word): Word {
    match op
    case MUL => ToWord(a * b)
    case MULH => ToWord(Signed(a) * Signed(b) / 0x1_0000_0000)
    case MULHSU => ToWord(Signed(a) * b / 0x1_0000_0000)
    case MULHU => ToWord(a * b / 0x1_0000_0000)
    case DIV => if b == 0 then 0xffff_ffff else ToWord(TruncDiv(Signed(a), Signed(b)))
    case DIVU => if b == 0 then 0xffff_ffff else a / b
    case REM => if b == 0 then a else ToWord(TruncRem(Signed(a), Signed(b)))
    case REMU => if b == 0 then a else a % b
  }

  /** What the instruction-set simulator computes directly (sim/trace.cc): wrapping unsigned
      products, the 64-bit sign fix-up of EXECUTE_MUH, and C division with its special cases. */
  function SimM(op: MduOp, a: Word, b: Word): Word {
    match op
    case MUL => (a * b) % 0x1_0000_0000
    case MULH => SimHigh(a, true, b, true)
    case MULHSU => SimHigh(a, true, b, false)
    case MULHU => SimHigh(a, false, b, false)
    case DIV =>
      if a == 0x8000_0000 && (b == 1 || Signed(b) == -1) then 0x8000_0000
      else if b != 0 then ToWord(TruncDiv(Signed(a), Signed(b))) else ToWord(-1)
    case DIVU => if b != 0 then a / b else ToWord(-1)
    case REM =>
      if a == 0x8000_0000 && (b == 1 || Signed(b) == -1) then 0
      else if b != 0 then ToWord(TruncRem(Signed(a), Signed(b))) else a
    case REMU => if b != 0 then a % b else a
  }

  /** `~x + 1` on 64 bits. */
  function Negate64(x: DWord): DWord {
    (0x1_0000_0000_0000_0000 - x) % 0x1_0000_0000_0000_0000
  }

  function SimHigh(a: Word, sign1: bool, b: Word, sign2: bool): Word {
    var neg1 := sign1 && a >= 0x8000_0000;
    var neg2 := sign2 && b >= 0x8000_0000;
    var u1 := if neg1 then Negate(a) else a;
    var u2 := if neg2 then Negate(b) else b;
    SimHighOf(neg1 != neg2, u1, u2)
  }

  function SimHighOf(neg: bool, u1: Word, u2: Word): Word {
    var value: DWord := (u1 * u2) % 0x1_0000_0000_0000_0000;
    (if neg then Negate64(value) else value) / 0x1_0000_0000
  }

  // ---------------------------------------------------------------------------
  // The clocked unit
  // ---------------------------------------------------------------------------

  predicate IsMulLow(op: MduOp) { op == MUL }
  predicate IsMulHigh(op: MduOp) { op == MULH || op == MULHU || op == MULHSU }
  predicate IsMul(op: MduOp) { IsMulLow(op) || IsMulHigh(op) }
  predicate IsDiv(op: MduOp) { op == DIV || op == DIVU }
  predicate IsRem(op: MduOp) { op == REM || op == REMU }
  predicate SignBit(w: Word) { w >= 0x8000_0000 }

  /** The `neg` wire. */
  predicate NegResult(op: MduOp, a: Word, b: Word) {
    || (op == MULH && SignBit(a) != SignBit(b))
    || (op == MULHSU && SignBit(a))
    || (op == DIV && SignBit(a) != SignBit(b))
    || (op == REM && SignBit(a) != SignBit(b))
  }

  /** The `src1` and `src2` wires: magnitudes of the operands the operation reads as signed. */
  function Source1(op: MduOp, a: Word): Word {
    if (op == MULH || op == MULHSU || op == DIV || op == REM) && SignBit(a) then Negate(a) else a
  }

  function Source2(op: MduOp, b: Word): Word {
    if (op == MULH || op == DIV || op == REM) && SignBit(b) then Negate(b) else b
  }

  /** The registers of the unit. */
  datatype State = State(
    busy: bool, computing: bool, valid: bool, dest: Word, outValid: bool, outDest: Word,
    multiplicand: DWord, multiplier: Word, product: DWord,
    dividend: Word, divisor: DWord, quotient: Word, step: nat)

  datatype Input = Input(flush: bool, stall: bool, enable: bool, op: MduOp, a: Word, b: Word)

  const RESET := State(false, false, false, 0, false, 0, 0, 0, 0, 0, 0, 0, 0)

  /** One rising clock edge. */
  function Next(m: State, i: Input): State {
    if i.flush then
      m.(busy := false, computing := false, valid := false, dest := 0, outValid := false, outDest := 0)
    else if !i.enable && m.busy then
      m
    else if !i.stall && m.valid then
      m.(busy := false, valid := false, dest := 0, outValid := true, outDest := m.dest)
    else if !i.stall && m.outValid then
      m.(outValid := false, outDest := 0)
    else if i.enable && !m.busy then
      NewJob(m.(busy := true), i)
    else if m.computing && IsMul(i.op) then
      MulStep(m, i)
    else if m.computing then
      DivStep(m, i)
    else
      m
  }

  function NewJob(m: State, i: Input): State {
    if IsMul(i.op) then
      if i.a == 0 then m.(valid := true, dest := 0)
      else m.(computing := true, multiplicand := Source1(i.op, i.a), multiplier := Source2(i.op, i.b), product := 0)
    else
      if Source2(i.op, i.b) == 0 then
        m.(valid := true, dest := if IsDiv(i.op) then 0xffff_ffff else i.a)
      else
        m.(computing := true, dividend := Source1(i.op, i.a),
           divisor := Source2(i.op, i.b) * 0x8000_0000, quotient := 0, step := 0)
  }

  function MulStep(m: State, i: Input): State {
    if m.multiplicand == 0 || m.multiplier == 0 then
      m.(computing := false, valid := true, dest := MulResult(i, m.product))
    else
      m.(product := ((if m.multiplier % 2 == 1 then m.multiplicand else 0) + m.product) % 0x1_0000_0000_0000_0000,
         multiplicand := (2 * m.multiplicand) % 0x1_0000_0000_0000_0000,
         multiplier := m.multiplier / 2)
  }

  /** Selection of the product word; `neg` takes the high half of the complemented product. */
  function MulResult(i: Input, product: DWord): Word {
    if NegResult(i.op, i.a, i.b) then Negate64(product) / 0x1_0000_0000
    else if IsMulHigh(i.op) then product / 0x1_0000_0000
    else product % 0x1_0000_0000
  }

  function DivStep(m: State, i: Input): State {
    if m.step == 32 then
      m.(computing := false, valid := true, dest := DivResult(i, m.quotient, m.dividend))
    else if m.divisor <= m.dividend then
      m.(dividend := ToWord(m.dividend - m.divisor % 0x1_0000_0000), quotient := (2 * m.quotient + 1) % 0x1_0000_0000,
         divisor := m.divisor / 2, step := (m.step + 1) % 64)
    else
      m.(quotient := (2 * m.quotient) % 0x1_0000_0000, divisor := m.divisor / 2, step := (m.step + 1) % 64)
  }

  function DivResult(i: Input, quotient: Word, remainder: Word): Word {
    if IsDiv(i.op) then
      if NegResult(i.op, i.a, i.b) then Negate(quotient) else quotient
    else
      if i.op == REM && SignBit(i.a) then Negate(remainder) else remainder
  }

  // ---------------------------------------------------------------------------
  // Invariant of a job whose operands are held
  // ---------------------------------------------------------------------------

  ghost predicate Idle(m: State) {
    !m.busy && !m.computing && !m.valid && !m.outValid
  }

  /** A restoring division after k of 32 steps: the top k quotient digits are known. */
  ghost predicate Dividing(m: State, n: nat, d: nat) {
    && 0 < d < 0x1_0000_0000
    && m.step <= 32
    && m.quotient < Pow2(m.step)
    && n == m.quotient * (Pow2(32 - m.step) * d) + m.dividend
    && m.dividend < Pow2(32 - m.step) * d
    && (m.step < 32 ==> m.divisor == Pow2(31 - m.step) * d)
  }

  ghost predicate Multiplying(m: State, total: nat) {
    && total < 0x1_0000_0000_0000_0000
    && m.product + m.multiplicand * m.multiplier == total
  }

  /** The unit is somewhere inside the job (op, a, b), or is delivering its result. */
  ghost predicate Working(m: State, op: MduOp, a: Word, b: Word) {
    || (m.busy && m.computing && !m.valid && !m.outValid &&
        if IsMul(op) then Multiplying(m, Source1(op, a) * Source2(op, b))
        else Dividing(m, Source1(op, a), Source2(op, b)))
    || (m.busy && !m.computing && m.valid && !m.outValid && m.dest == Rv32M(op, a, b))
    || (!m.busy && !m.computing && !m.valid && m.outValid && m.outDest == Rv32M(op, a, b))
  }

  /** Clock edges still needed before the result appears, when nothing stalls. */
  ghost function EdgesLeft(m: State, op: MduOp): nat {
    if m.outValid then 0
    else if m.valid then 1
    else if !m.busy then 35
    else if IsMul(op) then BitLength(m.multiplier) + 2
    else if m.step <= 32 then 32 - m.step + 2 else 2
  }

  // ---------------------------------------------------------------------------
  // Arithmetic lemmas
  // ---------------------------------------------------------------------------

  lemma ProductBound(x: Word, y: Word)
    ensures x * y < 0x1_0000_0000_0000_0000
  {
    FactorBound(x, y, 0xffff_ffff);
  }

  lemma FactorBound(x: nat, y: nat, b: nat)
    requires y <= b
    ensures x * y <= x * b
  {
  }

  lemma SignedMagnitude(a: Word)
    ensures SignBit(a) ==> Signed(a) == 0 - Negate(a) && Negate(a) == Magnitude(Signed(a)) && Negate(a) > 0
    ensures !SignBit(a) ==> Signed(a) == a == Magnitude(Signed(a))
  {
  }

  lemma NegatedProduct(u: int, v: int)
    ensures (-u) * v == -(u * v) && u * (-v) == -(u * v) && (-u) * (-v) == u * v
  {
  }

  /** Floor division of a negated product, and the high half of its two's complement, agree. */
  lemma HighOfNegated(p: int, n: int)
    requires 0 <= p < 0x1_0000_0000_0000_0000 && n == -p
    ensures ToWord(n / 0x1_0000_0000) == Negate64(p) / 0x1_0000_0000
  {
    if p != 0 {
      assert Negate64(p) == 0x1_0000_0000_0000_0000 + n;
      assert (0x1_0000_0000_0000_0000 + n) / 0x1_0000_0000 == n / 0x1_0000_0000 + 0x1_0000_0000;
    }
  }

  /** The signed product the operation reads, against the product of the magnitudes. */
  lemma SourceProduct(op: MduOp, a: Word, b: Word, x: int, y: int)
    requires IsMulHigh(op)
    requires x == if op == MULHU then a else Signed(a)
    requires y == if op == MULH then Signed(b) else b
    ensures x * y == if NegResult(op, a, b) then 0 - Source1(op, a) * Source2(op, b)
                     else Source1(op, a) * Source2(op, b)
  {
    var u: int, v: int := Source1(op, a), Source2(op, b);
    SignedMagnitude(a);
    SignedMagnitude(b);
    NegatedProduct(u, v);
    assert (x == u || x == -u) && (y == v || y == -v);
  }

  lemma HighWord(x: int, p: int, neg: bool)
    requires 0 <= p < 0x1_0000_0000_0000_0000
    requires x == if neg then -p else p
    ensures ToWord(x / 0x1_0000_0000) == (if neg then Negate64(p) else p) / 0x1_0000_0000
  {
    if neg {
      HighOfNegated(p, x);
    }
  }

  lemma HighResult(op: MduOp, a: Word, b: Word, x: int, y: int)
    requires IsMulHigh(op)
    requires x == if op == MULHU then a else Signed(a)
    requires y == if op == MULH then Signed(b) else b
    ensures Rv32M(op, a, b) == ToWord(x * y / 0x1_0000_0000)
  {
  }

  /** The high-word operations in terms of the product of the magnitudes. */
  lemma HighResultCorrect(op: MduOp, a: Word, b: Word, p: DWord)
    requires IsMulHigh(op) && p == Source1(op, a) * Source2(op, b)
    ensures Rv32M(op, a, b) == (if NegResult(op, a, b) then Negate64(p) else p) / 0x1_0000_0000
  {
    var x: int := if op == MULHU then a else Signed(a);
    var y: int := if op == MULH then Signed(b) else b;
    SourceProduct(op, a, b, x, y);
    HighResult(op, a, b, x, y);
    hide Rv32M, Source1, Source2;
    HighWord(x * y, p, NegResult(op, a, b));
  }

  lemma MulResultCorrect(i: Input, p: DWord)
    requires IsMul(i.op) && p == Source1(i.op, i.a) * Source2(i.op, i.b)
    ensures MulResult(i, p) == Rv32M(i.op, i.a, i.b)
  {
    if i.op != MUL {
      HighResultCorrect(i.op, i.a, i.b, p);
    }
  }

  lemma SignedQuotient(a: Word, b: Word, q: int)
    requires b != 0 && q == Source1(DIV, a) / Source2(DIV, b)
    ensures TruncDiv(Signed(a), Signed(b)) == if NegResult(DIV, a, b) then -q else q
  {
    SignedMagnitude(a);
    SignedMagnitude(b);
    assert Source1(DIV, a) == Magnitude(Signed(a)) && Source2(DIV, b) == Magnitude(Signed(b));
  }

  lemma SignedRemainder(a: Word, b: Word, r: int)
    requires b != 0 && r == Source1(REM, a) % Source2(REM, b)
    ensures TruncRem(Signed(a), Signed(b)) == if SignBit(a) then -r else r
  {
    SignedMagnitude(a);
    SignedMagnitude(b);
    assert Source1(REM, a) == Magnitude(Signed(a)) && Source2(REM, b) == Magnitude(Signed(b));
  }

  lemma NegateWraps(w: Word, x: int)
    requires x == 0 - w
    ensures Negate(w) == ToWord(x)
  {
  }

  lemma SignedQuotientDelivered(i: Input, q: Word, r: Word, t: int)
    requires i.op == DIV
    requires t == if NegResult(DIV, i.a, i.b) then 0 - q else q
    ensures DivResult(i, q, r) == ToWord(t)
  {
    NegateWraps(q, 0 - q);
  }

  lemma QuotientDelivered(i: Input, q: Word, r: Word)
    requires IsDiv(i.op) && i.b != 0
    requires q == Source1(i.op, i.a) / Source2(i.op, i.b)
    ensures DivResult(i, q, r) == Rv32M(i.op, i.a, i.b)
  {
    if i.op == DIV {
      SignedQuotient(i.a, i.b, q);
      SignedQuotientDelivered(i, q, r, TruncDiv(Signed(i.a), Signed(i.b)));
    }
  }

  lemma RemainderDelivered(i: Input, q: Word, r: Word)
    requires IsRem(i.op) && i.b != 0
    requires r == Source1(i.op, i.a) % Source2(i.op, i.b)
    ensures DivResult(i, q, r) == Rv32M(i.op, i.a, i.b)
  {
    if i.op == REM {
      SignedRemainder(i.a, i.b, r);
      NegateWraps(r, 0 - r);
    }
  }

  // ---------------------------------------------------------------------------
  // Each edge keeps the invariant
  // ---------------------------------------------------------------------------

  /** One shift-and-add step conserves product + multiplicand * multiplier; the shifted-out
      multiplicand only matters while multiplier digits remain. */
  lemma ShiftAddConserves(product: int, multiplicand: int, multiplier: int, bit: int,
                          product': int, multiplicand': int, multiplier': int)
    requires multiplier == 2 * multiplier' + bit && 0 <= bit <= 1
    requires product' == product + if bit == 1 then multiplicand else 0
    requires multiplier' == 0 || multiplicand' == 2 * multiplicand
    ensures product' + multiplicand' * multiplier' == product + multiplicand * multiplier
  {
    assert multiplicand * (2 * multiplier' + bit) == (2 * multiplicand) * multiplier' + multiplicand * bit;
  }

  lemma NoOverflow(product: nat, multiplicand: nat, multiplier: nat)
    requires multiplier > 0
    ensures product + multiplicand <= product + multiplicand * multiplier
    ensures multiplier > 1 ==> 2 * multiplicand <= product + multiplicand * multiplier
  {
    assert multiplicand * multiplier == multiplicand * (multiplier - 1) + multiplicand;
    if multiplier > 1 {
      assert multiplicand * (multiplier - 1) == multiplicand * (multiplier - 2) + multiplicand;
    }
  }

  lemma MulShiftKeeps(m: State, i: Input, total: nat)
    requires Multiplying(m, total) && m.multiplier != 0 && m.multiplicand != 0
    ensures Multiplying(MulStep(m, i), total)
    ensures BitLength(MulStep(m, i).multiplier) < BitLength(m.multiplier)
  {
    var n := MulStep(m, i);
    NoOverflow(m.product, m.multiplicand, m.multiplier);
    ShiftAddConserves(m.product, m.multiplicand, m.multiplier, m.multiplier % 2,
                      n.product, n.multiplicand, n.multiplier);
  }

  lemma MulStepKeeps(m: State, i: Input)
    requires IsMul(i.op) && m.busy && m.computing && !m.valid && !m.outValid
    requires Multiplying(m, Source1(i.op, i.a) * Source2(i.op, i.b))
    ensures Working(MulStep(m, i), i.op, i.a, i.b)
    ensures EdgesLeft(MulStep(m, i), i.op) < EdgesLeft(m, i.op)
  {
    if m.multiplicand == 0 || m.multiplier == 0 {
      assert m.multiplicand * m.multiplier == 0;
      MulResultCorrect(i, m.product);
    } else {
      MulShiftKeeps(m, i, Source1(i.op, i.a) * Source2(i.op, i.b));
    }
  }

  /** One restoring step: compare with the halved divisor image, extend the quotient by one digit. */
  lemma RestoringStep(n: nat, q: nat, r: nat, image: nat)
    requires n == q * (2 * image) + r && r < 2 * image
    ensures image <= r ==> n == (2 * q + 1) * image + (r - image) && r - image < image
    ensures r < image ==> n == (2 * q) * image + r
  {
    assert q * (2 * image) == (2 * q) * image;
    assert (2 * q + 1) * image == (2 * q) * image + image;
  }

  lemma DivStepKeeps(m: State, i: Input)
    requires !IsMul(i.op) && m.busy && m.computing && !m.valid && !m.outValid && i.b != 0
    requires Dividing(m, Source1(i.op, i.a), Source2(i.op, i.b))
    ensures Working(DivStep(m, i), i.op, i.a, i.b)
    ensures EdgesLeft(DivStep(m, i), i.op) < EdgesLeft(m, i.op)
  {
    var n: nat, d: nat := Source1(i.op, i.a), Source2(i.op, i.b);
    if m.step == 32 {
      assert Pow2(0) == 1;
      QuotientUnique(n, d, m.quotient, m.dividend);
      if IsDiv(i.op) {
        QuotientDelivered(i, m.quotient, m.dividend);
      } else {
        RemainderDelivered(i, m.quotient, m.dividend);
      }
    } else {
      DivDigit(m, i, n, d);
    }
  }

  lemma DivDigit(m: State, i: Input, n: nat, d: nat)
    requires Dividing(m, n, d) && m.step < 32
    ensures Dividing(DivStep(m, i), n, d)
    ensures DivStep(m, i).step == m.step + 1
  {
    var k: nat, image: nat, m' := m.step, m.divisor, DivStep(m, i);
    PowerTimes(31 - k, d);
    RestoringStep(n, m.quotient, m.dividend, image);
    QuotientFits(k, m.quotient);
    DivDigitRegisters(m, i);
    assert Pow2(31 - k) * d == image;
    assert m'.dividend < image && n == m'.quotient * image + m'.dividend;
    if k < 31 {
      PowerTimes(30 - k, d);
    }
  }

  /** The registers after a step, without their truncations. */
  lemma DivDigitRegisters(m: State, i: Input)
    requires m.step < 32 && 2 * m.quotient + 1 < 0x1_0000_0000
    ensures var m' := DivStep(m, i);
            && m'.step == m.step + 1 && m'.divisor == m.divisor / 2
            && m'.quotient == 2 * m.quotient + (if m.divisor <= m.dividend then 1 else 0)
            && m'.dividend == m.dividend - (if m.divisor <= m.dividend then m.divisor else 0)
  {
  }

  lemma QuotientFits(k: nat, q: nat)
    requires q < Pow2(k) && k < 32
    ensures 2 * q + 1 < Pow2(k + 1) <= 0x1_0000_0000
  {
    Pow2Monotone(k + 1, 32);
    Pow2Of32();
  }

  lemma PowerTimes(k: nat, d: nat)
    ensures Pow2(k + 1) * d == 2 * (Pow2(k) * d)
  {
  }

  lemma MulJobStarts(m: State, i: Input)
    requires Idle(m) && IsMul(i.op)
    ensures Working(NewJob(m.(busy := true), i), i.op, i.a, i.b)
    ensures EdgesLeft(NewJob(m.(busy := true), i), i.op) <= 34
  {
    if i.a == 0 {
      assert 0 * Signed(i.b) == 0 && 0 * i.b == 0;
    } else {
      ProductBound(Source1(i.op, i.a), Source2(i.op, i.b));
      Pow2Of32();
      BitLengthBound(Source2(i.op, i.b), 32);
    }
  }

  lemma ZeroDivisor(op: MduOp, a: Word, b: Word)
    requires !IsMul(op) && Source2(op, b) == 0
    ensures Rv32M(op, a, b) == if IsDiv(op) then 0xffff_ffff else a
  {
    SignedMagnitude(b);
  }

  lemma DivJobStarts(m: State, i: Input)
    requires Idle(m) && !IsMul(i.op)
    ensures Working(NewJob(m.(busy := true), i), i.op, i.a, i.b)
    ensures EdgesLeft(NewJob(m.(busy := true), i), i.op) <= 34
  {
    hide Rv32M, Source1, Source2, BitLength;
    if Source2(i.op, i.b) == 0 {
      ZeroDivisor(i.op, i.a, i.b);
    } else {
      Pow2Of32();
      assert Pow2(0) == 1 && 2 * Pow2(31) == Pow2(32);
    }
  }

  /** Starting a job from rest. */
  lemma NewJobStarts(m: State, i: Input)
    requires Idle(m) && i.enable && !i.stall && !i.flush
    ensures Working(Next(m, i), i.op, i.a, i.b)
    ensures EdgesLeft(Next(m, i), i.op) <= 34
  {
    if IsMul(i.op) {
      MulJobStarts(m, i);
    } else {
      DivJobStarts(m, i);
    }
  }

  /** While the operation and its operands are held, an edge without a flush keeps the job alive;
      an edge without a stall brings the delivery closer; a delivery ends the job. */
  lemma HeldJobStep(m: State, i: Input)
    requires Working(m, i.op, i.a, i.b) && !i.flush
    requires i.enable <==> !i.stall
    ensures !m.outValid || i.stall ==> Working(Next(m, i), i.op, i.a, i.b)
    ensures i.stall ==> Next(m, i) == m
    ensures !m.outValid && !i.stall ==> EdgesLeft(Next(m, i), i.op) < EdgesLeft(m, i.op)
    ensures m.outValid && !i.stall ==> Idle(Next(m, i))
  {
    if !i.stall && m.computing && !m.valid && !m.outValid {
      if IsMul(i.op) {
        MulStepKeeps(m, i);
      } else {
        assert i.b != 0 by { SignedMagnitude(i.b); }
        DivStepKeeps(m, i);
      }
    }
  }

  // ---------------------------------------------------------------------------
  // Whole runs
  // ---------------------------------------------------------------------------

  function Run(m: State, inputs: seq<Input>): State
    decreases |inputs|
  {
    if |inputs| == 0 then m else Run(Next(m, inputs[0]), inputs[1..])
  }

  /** Every edge presents the same job, as the stalled pipeline does; `enable` is low exactly
      while the consumer stalls (rtl/core/exec.sv:121-122). */
  ghost predicate Held(inputs: seq<Input>, op: MduOp, a: Word, b: Word) {
    forall k :: 0 <= k < |inputs| ==>
      var i := inputs[k];
      i.op == op && i.a == a && i.b == b && !i.flush && (i.enable <==> !i.stall)
  }

  /** Under any stalls, whatever the unit delivers for a held job is the RV32M result. */
  lemma {:induction false} HeldRunDelivers(m: State, inputs: seq<Input>, op: MduOp, a: Word, b: Word)
    requires Idle(m) || Working(m, op, a, b)
    requires Held(inputs, op, a, b)
    ensures var m' := Run(m, inputs);
            && (Idle(m') || Working(m', op, a, b))
            && (m'.outValid ==> m'.outDest == Rv32M(op, a, b) == SimM(op, a, b))
    decreases |inputs|
  {
    hide Rv32M, SimM, Source1, Source2, MulStep, DivStep, NewJob;
    SimAgrees(op, a, b);
    if |inputs| == 0 {
    } else {
      var i := inputs[0];
      if Idle(m) {
        if !i.stall { NewJobStarts(m, i); }
      } else {
        HeldJobStep(m, i);
      }
      HeldRunDelivers(Next(m, i), inputs[1..], op, a, b);
    }
  }

  /** Unstalled, the result is there after at most 35 edges from rest. */
  lemma {:induction false} ResultWithin35Edges(m: State, inputs: seq<Input>, op: MduOp, a: Word, b: Word)
    requires Idle(m) && |inputs| == 35 && Held(inputs, op, a, b)
    requires forall k :: 0 <= k < |inputs| ==> !inputs[k].stall
    ensures exists k :: 0 < k <= 35 && Run(m, inputs[..k]).outValid && Run(m, inputs[..k]).outDest == Rv32M(op, a, b)
  {
    hide Rv32M, Next, Working;
    NewJobStarts(m, inputs[0]);
    var k := DeliveryEdge(Next(m, inputs[0]), inputs[1..], op, a, b);
    assert inputs[..k + 1][0] == inputs[0] && inputs[..k + 1][1..] == inputs[1..][..k];
    assert Run(m, inputs[..k + 1]) == Run(Next(m, inputs[0]), inputs[1..][..k]);
  }

  lemma {:induction false} DeliveryEdge(m: State, inputs: seq<Input>, op: MduOp, a: Word, b: Word) returns (k: nat)
    requires Working(m, op, a, b) && EdgesLeft(m, op) <= |inputs| && Held(inputs, op, a, b)
    requires forall k :: 0 <= k < |inputs| ==> !inputs[k].stall
    ensures k <= |inputs|
    ensures Run(m, inputs[..k]).outValid && Run(m, inputs[..k]).outDest == Rv32M(op, a, b)
    decreases |inputs|
  {
    hide Rv32M, Source1, Source2, MulStep, DivStep, NewJob;
    if m.outValid {
      k := 0;
    } else {
      var i := inputs[0];
      HeldJobStep(m, i);
      var j := DeliveryEdge(Next(m, i), inputs[1..], op, a, b);
      k := j + 1;
      assert inputs[..k][0] == i && inputs[..k][1..] == inputs[1..][..j];
    }
  }

  /** A flush drops the job in whatever state it is: nothing is delivered until a new one starts. */
  lemma {:induction false} FlushedJobNeverDelivers(m: State, flush: Input, inputs: seq<Input>)
    requires flush.flush
    requires forall k :: 0 <= k < |inputs| ==> !inputs[k].enable
    ensures Idle(Run(Next(m, flush), inputs))
  {
    RestWithoutEnable(Next(m, flush), inputs);
  }

  lemma {:induction false} RestWithoutEnable(m: State, inputs: seq<Input>)
    requires Idle(m)
    requires forall k :: 0 <= k < |inputs| ==> !inputs[k].enable
    ensures Idle(Run(m, inputs))
    decreases |inputs|
  {
    if |inputs| == 0 {
    } else {
      RestWithoutEnable(Next(m, inputs[0]), inputs[1..]);
    }
  }

  // ---------------------------------------------------------------------------
  // The simulator's arithmetic
  // ---------------------------------------------------------------------------

  lemma SimHighIsSource(op: MduOp, a: Word, b: Word)
    requires IsMulHigh(op)
    ensures SimM(op, a, b) == SimHighOf(NegResult(op, a, b), Source1(op, a), Source2(op, b))
  {
    hide SimHighOf;
  }

  lemma SimHighWord(neg: bool, u: Word, v: Word, p: DWord)
    requires p == u * v
    ensures SimHighOf(neg, u, v) == (if neg then Negate64(p) else p) / 0x1_0000_0000
  {
    hide Negate64;
  }

  lemma SimHighAgrees(op: MduOp, a: Word, b: Word)
    requires IsMulHigh(op)
    ensures SimM(op, a, b) == Rv32M(op, a, b)
  {
    hide SimM, Source1, Source2, SimHighOf, Rv32M, Negate64, NegResult;
    ProductBound(Source1(op, a), Source2(op, b));
    var p: DWord := Source1(op, a) * Source2(op, b);
    SimHighIsSource(op, a, b);
    HighResultCorrect(op, a, b, p);
    SimHighWord(NegResult(op, a, b), Source1(op, a), Source2(op, b), p);
  }

  lemma MinimumOverUnit(b: Word)
    requires b == 1 || Signed(b) == -1
    ensures ToWord(TruncDiv(Signed(0x8000_0000), Signed(b))) == 0x8000_0000
    ensures ToWord(TruncRem(Signed(0x8000_0000), Signed(b))) == 0
  {
  }

  /** The two independent readings of RV32M coincide on every operand pair. */
  lemma SimAgrees(op: MduOp, a: Word, b: Word)
    ensures SimM(op, a, b) == Rv32M(op, a, b)
  {
    if IsMulHigh(op) {
      SimHighAgrees(op, a, b);
    } else if op == DIV || op == REM {
      if a == 0x8000_0000 && (b == 1 || Signed(b) == -1) {
        MinimumOverUnit(b);
      }
    }
  }
}
