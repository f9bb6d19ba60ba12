/** The core and the simulator give every instruction word the same meaning: exactly when, and the
    encodings on which they part. */
module Rv32Agree {
  import opened Words
  import opened Rv32
  import I = Isa
  import M = Mdu
  import T = Traps

  // ---------------------------------------------------------------------------
  // Fields of assembled words
  // ---------------------------------------------------------------------------

  ghost predicate IFields(imm: bv32, rs1: bv32, f3: bv32, rd: bv32, opc: bv32) {
    imm < 0x1000 && rs1 < 32 && f3 < 8 && rd < 32 && opc < 128
  }

  lemma ITypeRegs(imm: bv32, rs1: bv32, f3: bv32, rd: bv32, opc: bv32)
    requires IFields(imm, rs1, f3, rd, opc)
    ensures var w := IType(imm, rs1, f3, rd, opc);
            Opcode(w) == opc && Rd(w) == rd && Func3(w) == f3 && Rs1(w) == rs1
  {
  }

  lemma ITypeImm(imm: bv32, rs1: bv32, f3: bv32, rd: bv32, opc: bv32)
    requires IFields(imm, rs1, f3, rd, opc)
    ensures var w := IType(imm, rs1, f3, rd, opc);
            (w >> 20) & 0xfff == imm && ImmI(w) == Sign12To20(imm)
  {
  }

  lemma ITypeShamt(imm: bv32, rs1: bv32, f3: bv32, rd: bv32, opc: bv32)
    requires IFields(imm, rs1, f3, rd, opc)
    ensures var w := IType(imm, rs1, f3, rd, opc); Shamt(w) == imm & 31 && Func7(w) == imm >> 5
  {
  }

  lemma STypeFields(imm: bv32, rs2: bv32, rs1: bv32, f3: bv32, opc: bv32)
    requires imm < 0x1000 && rs1 < 32 && f3 < 8 && rs2 < 32 && opc < 128
    ensures var w := SType(imm, rs2, rs1, f3, opc);
            && Opcode(w) == opc && Func3(w) == f3 && Rs1(w) == rs1 && Rs2(w) == rs2 && ImmS(w) == Sign12To20(imm)
  {
  }

  lemma RTypeFields(f7: bv32, rs2: bv32, rs1: bv32, f3: bv32, rd: bv32)
    requires f7 < 128 && rs1 < 32 && f3 < 8 && rs2 < 32 && rd < 32
    ensures var w := RType(f7, rs2, rs1, f3, rd);
            Opcode(w) == 0x33 && Func3(w) == f3 && Rs1(w) == rs1 && Rs2(w) == rs2 && Rd(w) == rd && Func7(w) == f7
  {
  }

  lemma WordBit(w: bv32)
    requires Opcode(w) == 0x33
    ensures Opcode(w | 8) == 0x3b && Func3(w | 8) == Func3(w) && Rs1(w | 8) == Rs1(w) && Rs2(w | 8) == Rs2(w)
    ensures Rd(w | 8) == Rd(w) && Func7(w | 8) == Func7(w)
  {
  }

  lemma JumpFields(imm: bv32, rd: bv32)
    requires imm < 0x1000 && imm & 1 == 0 && rd < 32
    ensures var w := CompressedJump(imm, rd);
            && Opcode(w) == 0x6f && Rd(w) == rd && ExtendImm(ImmJ(w)) << 1 == SignBit12(imm)
  {
  }

  lemma BranchFields(imm: bv32, rs1: bv32, f3: bv32)
    requires imm < 0x200 && imm & 1 == 0 && rs1 < 32 && f3 < 8
    ensures var w := CompressedBranch(imm, rs1, f3);
            && Opcode(w) == 0x63 && Rs1(w) == rs1 && Rs2(w) == 0 && Func3(w) == f3
                && ExtendImm(ImmB(w)) << 1 == SignBit9(imm)
  {
  }

  lemma UpperFields(imm: bv32, rd: bv32)
    requires imm <= 0xf_ffff && rd < 32
    ensures var w := UType(imm, rd);
            Opcode(w) == 0x37 && Rd(w) == rd && ImmU(w) == imm
  {
  }

  // ---------------------------------------------------------------------------
  // The scrambled immediates of the two readings
  // ---------------------------------------------------------------------------

  lemma ImmAddi(i: bv32)
    ensures ExtendImm(Sign12To20(Sign6(Q1Imm5(i)))) == ImmCAddi(i) && Sign6(Q1Imm5(i)) < 0x1000
    ensures Q1Imm5(i) == ImmCSlli(i) && Q1Imm5(i) < 64
  {
  }

  lemma ImmAddi16sp(i: bv32)
    ensures ExtendImm(Sign12To20(Sign10(Q1Nzimm9(i)))) == ImmCAddi16sp(i) && Sign10(Q1Nzimm9(i)) < 0x1000
  {
  }

  lemma ImmAddi4spn(i: bv32)
    ensures ExtendImm(Sign12To20(Q0Nzuimm(i))) == ImmCAddi4spn(i) && Q0Nzuimm(i) < 0x1000
  {
  }

  lemma ImmMemory(i: bv32)
    ensures ExtendImm(Sign12To20(Q0Uimm6(i))) == ImmCLwsw(i) && Q0Uimm6(i) < 0x1000
  {
  }

  lemma ImmStack(i: bv32)
    ensures ExtendImm(Sign12To20(Q2Uimm7(i))) == ImmCLwsp(i) && Q2Uimm7(i) < 0x1000
    ensures ExtendImm(Sign12To20(Q2Uimm27(i))) == ImmCSwsp(i) && Q2Uimm27(i) < 0x1000
  {
  }

  lemma ImmJump(i: bv32)
    ensures SignBit12(Q1Imm11(i)) == ImmCJ(i) && Q1Imm11(i) < 0x1000 && Q1Imm11(i) & 1 == 0
  {
  }

  lemma ImmBranch(i: bv32)
    ensures SignBit9(Q1Imm8(i)) == ImmCB(i) && Q1Imm8(i) < 0x200 && Q1Imm8(i) & 1 == 0
  {
  }

  lemma ImmLui(i: bv32)
    ensures var imm := Sign6To20(Q1Imm5(i));
            imm <= 0xf_ffff && (ExtendImm(imm) & 0xf_ffff) << 12 == ImmCLui(i)
  {
  }

  lemma Registers(i: bv32)
    ensures Q0Rdp(i) == Q1Rs2p(i) && Q0Rs1p(i) == Q1Rp(i) && 8 <= Q0Rdp(i) < 16 && 8 <= Q0Rs1p(i) < 16
    ensures Q1R(i) == CrdRs1(i) < 32 && Q2Rs2(i) == Crs2(i) < 32
    ensures Nat5(Q0Rdp(i)) == Popular(CrdRs2p(i)) && Nat5(Q0Rs1p(i)) == Popular(CrdRs1p(i))
  {
  }

  lemma IndexZero(r: bv32)
    requires r < 32
    ensures Nat5(r) == 0 <==> r == 0
  {
  }

  lemma IndexLiterals()
    ensures Nat5(0) == 0 && Nat5(1) == 1 && Nat5(2) == 2
  {
  }

  // ---------------------------------------------------------------------------
  // Immediates as numbers
  // ---------------------------------------------------------------------------

  lemma OrKeepsBit(x: bv32, mask: bv32)
    requires mask & 0xfff0_0000 == 0
    ensures B(x | 0xfff0_0000, mask) == B(x, mask)
  {
  }

  lemma SignKeepsLow(x: bv32)
    ensures Nat20(x | 0xfff0_0000) == Nat20(x)
  {
    hide B;
    OrKeepsBit(x, 1); OrKeepsBit(x, 2); OrKeepsBit(x, 4); OrKeepsBit(x, 8);
    OrKeepsBit(x, 0x10); OrKeepsBit(x, 0x20); OrKeepsBit(x, 0x40); OrKeepsBit(x, 0x80);
    OrKeepsBit(x, 0x100); OrKeepsBit(x, 0x200); OrKeepsBit(x, 0x400); OrKeepsBit(x, 0x800);
    OrKeepsBit(x, 0x1000); OrKeepsBit(x, 0x2000); OrKeepsBit(x, 0x4000); OrKeepsBit(x, 0x8000);
    OrKeepsBit(x, 0x1_0000); OrKeepsBit(x, 0x2_0000); OrKeepsBit(x, 0x4_0000); OrKeepsBit(x, 0x8_0000);
  }

  lemma SignSetsHigh(x: bv32)
    ensures High12(x | 0xfff0_0000) == 0xfff
  {
  }

  lemma NoHighBits(x: bv32)
    requires x & 0xf_ffff == x
    ensures High12(x) == 0
  {
  }

  lemma SignBit19(x: bv32)
    ensures Nat20(x) >= 0x8_0000 <==> x & 0x8_0000 != 0
  {
    assert B(x, 0x8_0000) == if x & 0x8_0000 == 0 then 0 else 1;
    hide B;
  }

  /** The 20-bit immediate, sign-extended as a vector or as a number. */
  lemma ExtendedNumber(x: bv32)
    requires x & 0xf_ffff == x
    ensures Nat32(ExtendImm(x)) == I.ExtendImm(Nat20(x))
  {
    hide Nat20, High12;
    SignKeepsLow(x);
    SignSetsHigh(x);
    NoHighBits(x);
    SignBit19(x);
  }

  lemma ShiftedBits(x: bv32)
    ensures B(x << 1, 1) == 0 && B(x << 1, 2) == B(x, 1) && B(x << 1, 4) == B(x, 2) && B(x << 1, 8) == B(x, 4)
    ensures B(x << 1, 0x10) == B(x, 8) && B(x << 1, 0x20) == B(x, 0x10) && B(x << 1, 0x40) == B(x, 0x20)
              && B(x << 1, 0x80) == B(x, 0x40)
    ensures B(x << 1, 0x100) == B(x, 0x80) && B(x << 1, 0x200) == B(x, 0x100) && B(x << 1, 0x400) == B(x, 0x200)
              && B(x << 1, 0x800) == B(x, 0x400)
    ensures B(x << 1, 0x1000) == B(x, 0x800) && B(x << 1, 0x2000) == B(x, 0x1000) && B(x << 1, 0x4000) == B(x, 0x2000)
              && B(x << 1, 0x8000) == B(x, 0x4000)
  {
  }

  lemma ShiftedHighBits(x: bv32)
    ensures B(x << 1, 0x1_0000) == B(x, 0x8000) && B(x << 1, 0x2_0000) == B(x, 0x1_0000)
    ensures B(x << 1, 0x4_0000) == B(x, 0x2_0000) && B(x << 1, 0x8_0000) == B(x, 0x4_0000)
    ensures B(x << 1, 0x10_0000) == B(x, 0x8_0000) && B(x << 1, 0x20_0000) == B(x, 0x10_0000)
    ensures B(x << 1, 0x40_0000) == B(x, 0x20_0000) && B(x << 1, 0x80_0000) == B(x, 0x40_0000)
    ensures B(x << 1, 0x100_0000) == B(x, 0x80_0000) && B(x << 1, 0x200_0000) == B(x, 0x100_0000)
    ensures B(x << 1, 0x400_0000) == B(x, 0x200_0000) && B(x << 1, 0x800_0000) == B(x, 0x400_0000)
    ensures B(x << 1, 0x1000_0000) == B(x, 0x800_0000) && B(x << 1, 0x2000_0000) == B(x, 0x1000_0000)
    ensures B(x << 1, 0x4000_0000) == B(x, 0x2000_0000) && B(x << 1, 0x8000_0000) == B(x, 0x4000_0000)
  {
  }

  lemma ShiftedLow(x: bv32)
    ensures Nat20(x << 1) == 2 * Nat20(x) - 0x10_0000 * B(x, 0x8_0000)
  {
    hide B;
    ShiftedBits(x);
    ShiftedHighBits(x);
  }

  lemma ShiftedHigh(x: bv32)
    ensures High12(x << 1) == 2 * High12(x) - 0x1000 * B(x, 0x8000_0000) + B(x, 0x8_0000)
  {
    hide B;
    ShiftedHighBits(x);
  }

  /** Shifting left by one doubles, modulo 2^32. */
  lemma ShiftedNumber(x: bv32)
    ensures Nat32(x << 1) == ToWord(2 * Nat32(x))
  {
    hide B, Nat20, High12;
    ShiftedLow(x);
    ShiftedHigh(x);
    WrapOnce(2 * Nat32(x), B(x, 0x8000_0000));
  }

  lemma WrapOnce(n: int, top: nat)
    requires top <= 1 && 0 <= n - 0x1_0000_0000 * top < 0x1_0000_0000
    ensures ToWord(n) == n - 0x1_0000_0000 * top
  {
  }

  lemma UpperBit(x: bv32)
    ensures B((x & 0xf_ffff) << 12, 0x1000) == B(x, 1) && B((x & 0xf_ffff) << 12, 0x2000) == B(x, 2)
    ensures B((x & 0xf_ffff) << 12, 0x4000) == B(x, 4) && B((x & 0xf_ffff) << 12, 0x8000) == B(x, 8)
    ensures B((x & 0xf_ffff) << 12, 0x1_0000) == B(x, 0x10) && B((x & 0xf_ffff) << 12, 0x2_0000) == B(x, 0x20)
    ensures B((x & 0xf_ffff) << 12, 0x4_0000) == B(x, 0x40) && B((x & 0xf_ffff) << 12, 0x8_0000) == B(x, 0x80)
    ensures B((x & 0xf_ffff) << 12, 0x10_0000) == B(x, 0x100) && B((x & 0xf_ffff) << 12, 0x20_0000) == B(x, 0x200)
    ensures B((x & 0xf_ffff) << 12, 0x40_0000) == B(x, 0x400) && B((x & 0xf_ffff) << 12, 0x80_0000) == B(x, 0x800)
    ensures B((x & 0xf_ffff) << 12, 0x100_0000) == B(x, 0x1000) && B((x & 0xf_ffff) << 12, 0x200_0000) == B(x, 0x2000)
    ensures B((x & 0xf_ffff) << 12, 0x400_0000) == B(x, 0x4000) && B((x & 0xf_ffff) << 12, 0x800_0000) == B(x, 0x8000)
    ensures B((x & 0xf_ffff) << 12, 0x1000_0000) == B(x, 0x1_0000)
              && B((x & 0xf_ffff) << 12, 0x2000_0000) == B(x, 0x2_0000)
    ensures B((x & 0xf_ffff) << 12, 0x4000_0000) == B(x, 0x4_0000)
              && B((x & 0xf_ffff) << 12, 0x8000_0000) == B(x, 0x8_0000)
  {
  }

  lemma LowCleared(x: bv32)
    ensures Nat8((x & 0xf_ffff) << 12) == 0
    ensures B((x & 0xf_ffff) << 12, 0x100) == 0 && B((x & 0xf_ffff) << 12, 0x200) == 0
    ensures B((x & 0xf_ffff) << 12, 0x400) == 0 && B((x & 0xf_ffff) << 12, 0x800) == 0
  {
  }

  lemma UpperLow(x: bv32)
    ensures Nat20((x & 0xf_ffff) << 12) == 0x1000 * Nat8(x)
  {
    hide B;
    UpperBit(x);
    LowCleared(x);
  }

  lemma UpperHigh(x: bv32)
    ensures Nat20(x) == Nat8(x) + 0x100 * High12((x & 0xf_ffff) << 12)
  {
    hide B, Nat8;
    UpperBit(x);
  }

  /** The low 20 bits moved to the top. */
  lemma UpperNumber(x: bv32)
    ensures Nat32((x & 0xf_ffff) << 12) == UpperWord(Nat32(x))
  {
    hide B, Nat8, Nat20, High12;
    UpperLow(x);
    UpperHigh(x);
    LowOfWord(Nat20(x), High12(x));
  }

  lemma LowOfWord(low: I.Imm20, high: nat)
    requires high < 0x1000
    ensures (low + 0x10_0000 * high) % 0x10_0000 == low
  {
  }

  lemma LowFive(x: bv32)
    ensures Nat32(x) % 32 == Nat5(x) == Nat32(x & 31) && Nat32(x & 31) % 32 == Nat5(x)
  {
    LowFiveBits(x);
    hide B;
    var rest := (B(x, 0x20) + 2 * B(x, 0x40) + 4 * B(x, 0x80)) +
      8 * (B(x, 0x100) + 2 * B(x, 0x200) + 4 * B(x, 0x400) + 8 * B(x, 0x800)) +
      0x80 * (B(x, 0x1000) + 2 * B(x, 0x2000) + 4 * B(x, 0x4000) + 8 * B(x, 0x8000)) +
      0x800 * (B(x, 0x1_0000) + 2 * B(x, 0x2_0000) + 4 * B(x, 0x4_0000) + 8 * B(x, 0x8_0000)) + 0x8000 * High12(x);
    hide High12;
    assert Nat32(x) == Nat5(x) + 32 * rest;
    hide Nat32, Nat5;
    Remainder32(Nat5(x), rest);
    Remainder32(Nat5(x), 0);
  }

  lemma Remainder32(r: nat, q: nat)
    requires r < 32
    ensures (r + 32 * q) % 32 == r
  {
  }

  lemma LowFiveBits(x: bv32)
    ensures Nat32(x & 31) == Nat5(x)
  {
  }

  lemma ShiftAmounts(a: Word, x: bv32)
    ensures ShiftLeft(a, Nat32(x & 31)) == ShiftLeft(a, Nat32(x))
    ensures ShiftRight(a, Nat32(x & 31)) == ShiftRight(a, Nat32(x))
    ensures ShiftArith(a, Nat32(x & 31)) == ShiftArith(a, Nat32(x))
  {
    hide Nat32;
    LowFive(x);
  }

  // ---------------------------------------------------------------------------
  // Rows of the three instruction shapes
  // ---------------------------------------------------------------------------

  lemma ImmediateRow(imm: bv32, rs1: bv32, f3: bv32, rd: bv32)
    requires IFields(imm, rs1, f3, rd, 0x13)
    ensures var w := IType(imm, rs1, f3, rd, 0x13);
            && (f3 == 0 ==> Decode(w) == Row(I.Alu(I.ADD), 0, rd, I.RdReg, rs1, I.RsReg, 0, I.RsImm, Sign12To20(imm)))
            && (f3 == 7 ==> Decode(w) == Row(I.Alu(I.AND), 0, rd, I.RdReg, rs1, I.RsReg, 0, I.RsImm, Sign12To20(imm)))
            && (f3 == 1 ==> Decode(w) == Row(I.Alu(I.SLL), 0, rd, I.RdReg, rs1, I.RsReg, 0, I.RsImm, imm & 31))
            && (f3 == 5 ==>
                  Decode(w) == Row(I.Alu(if imm & 0x400 != 0 then I.SRA else I.SRL), 0, rd, I.RdReg, rs1, I.RsReg, 0,
                                   I.RsImm, imm & 31))
  {
    hide IType, Opcode, Rd, Func3, Rs1, Rs2, Func7, ImmI, Shamt, Sign12To20;
    ITypeRegs(imm, rs1, f3, rd, 0x13);
    ITypeImm(imm, rs1, f3, rd, 0x13);
    ITypeShamt(imm, rs1, f3, rd, 0x13);
    assert (imm >> 5) & 0x20 != 0 <==> imm & 0x400 != 0;
  }

  lemma LoadRow(imm: bv32, rs1: bv32, rd: bv32)
    requires IFields(imm, rs1, 2, rd, 0x03)
    ensures Decode(IType(imm, rs1, 2, rd, 0x03)) ==
              Row(I.Mem(I.LD), 2, rd, I.RdReg, rs1, I.RsReg, 0, I.RsImm, Sign12To20(imm))
  {
    hide IType, Opcode, Rd, Func3, Rs1, Rs2, Func7, ImmI, Shamt, Sign12To20;
    ITypeRegs(imm, rs1, 2, rd, 0x03);
    ITypeImm(imm, rs1, 2, rd, 0x03);
  }

  lemma StoreRow(imm: bv32, rs2: bv32, rs1: bv32)
    requires imm < 0x1000 && rs1 < 32 && rs2 < 32
    ensures Decode(SType(imm, rs2, rs1, 2, 0x23)) ==
              Row(I.Mem(I.ST), 2, 0, I.RdNone, rs1, I.RsReg, rs2, I.RsReg, Sign12To20(imm))
  {
    hide SType, Opcode, Rd, Func3, Rs1, Rs2, Func7, ImmS, Shamt, Sign12To20;
    STypeFields(imm, rs2, rs1, 2, 0x23);
  }

  lemma RegisterRow(f7: bv32, rs2: bv32, rs1: bv32, f3: bv32, rd: bv32)
    requires rs1 < 32 && rs2 < 32 && rd < 32 && f3 < 8 && f7 < 128
    ensures var w := RType(f7, rs2, rs1, f3, rd);
            && Decode(w) == DecodeAlu(w)
            && Func3(w) == f3 && Func7(w) == f7 && Rd(w) == rd && Rs1(w) == rs1 && Rs2(w) == rs2
  {
    hide RType, Opcode, Rd, Func3, Rs1, Rs2, Func7, DecodeAlu;
    RTypeFields(f7, rs2, rs1, f3, rd);
  }

  lemma DecodeOfWord(w: bv32)
    requires Opcode(w) == 0x3b
    ensures Decode(w) == DecodeAluW(w)
  {
    hide Opcode, DecodeAluW;
  }

  lemma RegisterRowW(f7: bv32, rs2: bv32, rs1: bv32, f3: bv32, rd: bv32)
    requires rs1 < 32 && rs2 < 32 && rd < 32 && f3 < 8 && f7 < 128
    ensures var w := RType(f7, rs2, rs1, f3, rd) | 8;
            && Decode(w) == DecodeAluW(w)
            && Func3(w) == f3 && Func7(w) == f7 && Rd(w) == rd && Rs1(w) == rs1 && Rs2(w) == rs2
  {
    hide RType, Opcode, Rd, Func3, Rs1, Rs2, Func7, DecodeAluW, Decode;
    RTypeFields(f7, rs2, rs1, f3, rd);
    WordBit(RType(f7, rs2, rs1, f3, rd));
    DecodeOfWord(RType(f7, rs2, rs1, f3, rd) | 8);
  }

  // ---------------------------------------------------------------------------
  // Rows executed, in the simulator's terms
  // ---------------------------------------------------------------------------

  /** The core's own tables, and a state with x0 at zero, as every reachable one is. */
  ghost predicate Setting(m: I.Machine, a: I.Arch) { IsCore(m) && a.regs[0] == 0 }

  lemma CoreAlu(m: I.Machine, op: I.AluOp, x: Word, y: Word)
    requires IsCore(m)
    ensures m.alu(op, x, y) == Alu(op, x, y)
  {
    hide Alu;
  }

  /** The decode record of a row; B(size) and the indices are numbers. */
  lemma ImmediateFields(op: I.AluOp, rd: bv32, rs1: bv32, imm: bv32)
    requires op != I.FENCE
    ensures var r := Row(I.Alu(op), 0, rd, I.RdReg, rs1, I.RsReg, 0, I.RsImm, imm);
            && I.WellFormed(FieldsOf(r))
            && FieldsOf(r) == I.Fields(I.Alu(op), 0, I.RegSel(Nat5(rd), true), I.RdReg, I.RegSel(Nat5(rs1), true),
                I.RsReg,
                                       I.RegSel(0, false), I.RsImm, Nat20(imm), false)
  {
    hide Nat20;
    IndexLiterals();
    assert B(0, 1) == 0 && B(0, 2) == 0;
    hide B, Nat5;
  }

  lemma AluImmediate(m: I.Machine, a: I.Arch, op: I.AluOp, rd: bv32, rs1: bv32, imm: bv32, half: bool)
    requires Setting(m, a) && op != I.FENCE && imm & 0xf_ffff == imm
    ensures CoreExecute(m, a, Row(I.Alu(op), 0, rd, I.RdReg, rs1, I.RsReg, 0, I.RsImm, imm), half) ==
              SimAlu(a, half, Nat5(rd), Alu(op, Read(a, Nat5(rs1)), Nat32(ExtendImm(imm))))
  {
    hide Alu, FieldsOf, Nat5, Nat20, Nat32, ExtendImm;
    ImmediateFields(op, rd, rs1, imm);
    ExtendedNumber(imm);
    CoreAlu(m, op, Read(a, Nat5(rs1)), Nat32(ExtendImm(imm)));
  }

  /** The size field of a register row does not matter. */
  lemma AluRegister(m: I.Machine, a: I.Arch, op: I.AluOp, size: bv32, rd: bv32, rs1: bv32, rs2: bv32, half: bool)
    requires Setting(m, a) && op != I.FENCE
    ensures CoreExecute(m, a, Row(I.Alu(op), size, rd, I.RdReg, rs1, I.RsReg, rs2, I.RsReg, 0), half) ==
              SimAlu(a, half, Nat5(rd), Alu(op, Read(a, Nat5(rs1)), Read(a, Nat5(rs2))))
  {
    hide Alu, Nat5, Nat20, Nat32, B;
    CoreAlu(m, op, Read(a, Nat5(rs1)), Read(a, Nat5(rs2)));
  }

  lemma MulRegister(m: I.Machine, a: I.Arch, op: M.MduOp, rd: bv32, rs1: bv32, rs2: bv32)
    requires Setting(m, a)
    ensures CoreExecute(m, a, Row(I.Mul(op), 0, rd, I.RdReg, rs1, I.RsReg, rs2, I.RsReg, 0), false) ==
              SimAlu(a, false, Nat5(rd), M.Rv32M(op, Read(a, Nat5(rs1)), Read(a, Nat5(rs2))))
  {
    hide IsCore, CoreMachine, Alu, Nat5, Nat20, Nat32, B, M.Rv32M;
  }

  lemma SizeNumbers()
    ensures B(0, 1) + 2 * B(0, 2) == 0 && B(1, 1) + 2 * B(1, 2) == 1 && B(2, 1) + 2 * B(2, 2) == 2
              && B(3, 1) + 2 * B(3, 2) == 3
  {
  }

  lemma LoadCase(m: I.Machine, a: I.Arch, op: I.MemOp, size: bv32, rd: bv32, rs1: bv32, imm: bv32, half: bool)
    requires Setting(m, a) && op != I.ST && imm & 0xf_ffff == imm && (size == 0 || size == 1 || size == 2 || size == 3)
    ensures CoreExecute(m, a, Row(I.Mem(op), size, rd, I.RdReg, rs1, I.RsReg, 0, I.RsImm, imm), half) ==
              SimLoad(m, a, half, Nat5(rd), Read(a, Nat5(rs1)), Nat32(ExtendImm(imm)), op == I.LD,
                  B(size, 1) + 2 * B(size, 2))
  {
    hide IsCore, CoreMachine, Alu, Nat5, Nat20, Nat32, ExtendImm, I.Misaligned, I.Load;
    hide B;
    SizeNumbers();
    ExtendedNumber(imm);
  }

  lemma StoreRecord(size: bv32, rs1: bv32, rs2: bv32, imm: bv32)
    requires size == 0 || size == 1 || size == 2
    ensures var r := Row(I.Mem(I.ST), size, 0, I.RdNone, rs1, I.RsReg, rs2, I.RsReg, imm);
            && I.WellFormed(FieldsOf(r))
            && FieldsOf(r) == I.Fields(I.Mem(I.ST), B(size, 1) + 2 * B(size, 2), I.RegSel(0, false), I.RdNone,
                                       I.RegSel(Nat5(rs1), true), I.RsReg, I.RegSel(Nat5(rs2), true), I.RsReg,
                                           Nat20(imm), false)
  {
    hide Nat20, Nat5, B;
    SizeNumbers();
    IndexLiterals();
  }

  lemma StoreCase(m: I.Machine, a: I.Arch, size: bv32, rs1: bv32, rs2: bv32, imm: bv32, half: bool)
    requires Setting(m, a) && imm & 0xf_ffff == imm && (size == 0 || size == 1 || size == 2)
    ensures CoreExecute(m, a, Row(I.Mem(I.ST), size, 0, I.RdNone, rs1, I.RsReg, rs2, I.RsReg, imm), half) ==
              SimStore(m, a, half, Read(a, Nat5(rs2)), Read(a, Nat5(rs1)), Nat32(ExtendImm(imm)),
                  B(size, 1) + 2 * B(size, 2))
  {
    hide IsCore, CoreMachine, Alu, FieldsOf, Nat5, Nat20, Nat32, ExtendImm, I.ExtendImm, I.Misaligned, I.Store, B;
    SizeNumbers();
    StoreRecord(size, rs1, rs2, imm);
    ExtendedNumber(imm);
  }

  /** To the core an unknown row is an instruction that does nothing. */
  function Skip(a: I.Arch, half: bool): Outcome { Next(a.(pc := I.NextPc(a.pc, half)), []) }

  lemma NopCase(m: I.Machine, a: I.Arch, half: bool)
    ensures CoreExecute(m, a, UnknownRow, half) == Skip(a, half)
  {
  }

  /** The core stops at no row of its units. */
  lemma RowsGoOn(m: I.Machine, a: I.Arch, r: Row, half: bool)
    requires r.Row? || r.UnknownRow?
    ensures CoreExecute(m, a, r, half).Next?
  {
    hide I.Perform, I.StoreBy, DecodeRow;
  }

  lemma OffsetSum(pc: Word, imm: I.Imm20)
    ensures ToWord(pc + 2 * I.ExtendImm(imm)) == Plus(pc, ToWord(2 * I.ExtendImm(imm)))
  {
    SumOfWords(pc, 2 * I.ExtendImm(imm));
  }

  lemma SumOfWords(x: Word, y: nat)
    requires y < 0x2_0000_0000
    ensures ToWord(x + y) == Plus(x, ToWord(y))
  {
    if y >= 0x1_0000_0000 {
      WrapOnce(y, 1);
    } else {
      WrapOnce(y, 0);
    }
  }

  lemma JumpCase(m: I.Machine, a: I.Arch, rd: bv32, imm: bv32, half: bool)
    requires Setting(m, a) && imm & 0xf_ffff == imm
    ensures CoreExecute(m, a, Row(I.Bru(I.JAL), 0, rd, I.RdRegAndPc, 0, I.RsPc, 0, I.RsImm, imm), half) ==
              SimJal(a, half, Nat5(rd), a.pc, Nat32(ExtendImm(imm) << 1))
  {
    hide IsCore, CoreMachine, Alu, Nat5, Nat20, Nat32, ExtendImm, B, Plus, ToWord, I.Even;
    SizeNumbers();
    IndexLiterals();
    ExtendedNumber(imm);
    ShiftedNumber(ExtendImm(imm));
    OffsetSum(a.pc, Nat20(imm));
  }

  lemma JumpRegisterCase(m: I.Machine, a: I.Arch, rd: bv32, rs1: bv32, imm: bv32, half: bool)
    requires Setting(m, a) && imm & 0xf_ffff == imm
    ensures CoreExecute(m, a, Row(I.Bru(I.JALR), 0, rd, I.RdRegAndPc, rs1, I.RsReg, 0, I.RsImm, imm), half) ==
              SimJal(a, half, Nat5(rd), Read(a, Nat5(rs1)), Nat32(ExtendImm(imm)))
  {
    hide IsCore, CoreMachine, Alu, Nat5, Nat20, Nat32, ExtendImm, B, Plus, I.Even;
    SizeNumbers();
    IndexLiterals();
    ExtendedNumber(imm);
  }

  lemma EvenKept(p: I.Pc)
    ensures I.Even(p) == p
  {
  }

  lemma BranchRecord(op: I.BruOp, invert: bool, rs1: bv32, rs2: bv32, imm: bv32)
    ensures var r := Row(I.Bru(op), if invert then 3 else 0, 0, I.RdPc, rs1, I.RsReg, rs2, I.RsReg, imm);
            && I.WellFormed(FieldsOf(r))
            && FieldsOf(r) == I.Fields(I.Bru(op), if invert then 3 else 0, I.RegSel(0, false), I.RdPc,
                I.RegSel(Nat5(rs1), true), I.RsReg,
                                       I.RegSel(Nat5(rs2), true), I.RsReg, Nat20(imm), false)
  {
    hide Nat20, Nat5, B;
    SizeNumbers();
    IndexLiterals();
  }

  /** Where a taken branch goes: the even sum, with or without clearing bit 0. */
  lemma BranchTarget(pc: I.Pc, imm: bv32, offset: I.Pc)
    requires imm & 0xf_ffff == imm && offset == Nat32(ExtendImm(imm) << 1)
    ensures I.Even(ToWord(pc + 2 * I.ExtendImm(Nat20(imm)))) == EvenSum(pc, offset)
  {
    hide Nat20, Nat32, ExtendImm, Plus, ToWord, I.Even, I.ExtendImm;
    ExtendedNumber(imm);
    ShiftedNumber(ExtendImm(imm));
    OffsetSum(pc, Nat20(imm));
    EvenKept(EvenSum(pc, offset));
  }

  lemma BranchCase(m: I.Machine, a: I.Arch, op: I.BruOp, invert: bool, rs1: bv32, rs2: bv32, imm: bv32, half: bool,
                   offset: I.Pc)
    requires Setting(m, a) && imm & 0xf_ffff == imm && offset == Nat32(ExtendImm(imm) << 1)
               && (op == I.BEQ || op == I.BLT || op == I.BLTU)
    ensures CoreExecute(m, a, Row(I.Bru(op), if invert then 3 else 0, 0, I.RdPc, rs1, I.RsReg, rs2, I.RsReg, imm),
              half) ==
              SimBranch(a, half, I.Condition(op, Read(a, Nat5(rs1)), Read(a, Nat5(rs2))) != invert, offset)
  {
    hide IsCore, CoreMachine, Alu, FieldsOf, Nat5, Nat20, Nat32, ExtendImm, I.ExtendImm, B, Plus, ToWord, I.Even,
         I.Condition, EvenSum;
    BranchRecord(op, invert, rs1, rs2, imm);
    BranchTarget(a.pc, imm, offset);
  }

  lemma UpperRecord(rd: bv32, pcRelative: bool, imm: bv32)
    ensures var r := Row(I.Alu(I.LUI), 0, rd, I.RdReg, 0, if pcRelative then I.RsPc else I.RsReg, 0, I.RsImm, imm);
            && I.WellFormed(FieldsOf(r))
            && FieldsOf(r) == I.Fields(I.Alu(I.LUI), 0, I.RegSel(Nat5(rd), true), I.RdReg, I.RegSel(0, !pcRelative),
                                       if pcRelative then I.RsPc else I.RsReg,
                                       I.RegSel(0, false), I.RsImm, Nat20(imm), false)
  {
    hide Nat20, Nat5, B;
    SizeNumbers();
    IndexLiterals();
  }

  lemma UpperSum(base: Word, imm: bv32)
    requires imm & 0xf_ffff == imm
    ensures Alu(I.LUI, base, I.ExtendImm(Nat20(imm))) == Plus(base, Nat32((ExtendImm(imm) & 0xf_ffff) << 12))
  {
    hide Nat20, Nat32, ExtendImm, I.ExtendImm, Plus, UpperWord;
    ExtendedNumber(imm);
    UpperNumber(ExtendImm(imm));
  }

  lemma UpperCase(m: I.Machine, a: I.Arch, rd: bv32, pcRelative: bool, imm: bv32, half: bool)
    requires Setting(m, a) && imm & 0xf_ffff == imm
    ensures CoreExecute(m, a, Row(I.Alu(I.LUI), 0, rd, I.RdReg, 0, if pcRelative then I.RsPc else I.RsReg, 0, I.RsImm,
              imm), half) ==
              SimAlu(a, half, Nat5(rd), Plus(if pcRelative then a.pc else 0, Nat32((ExtendImm(imm) & 0xf_ffff) << 12)))
  {
    hide CoreMachine, Alu, FieldsOf, Nat5, Nat20, Nat32, ExtendImm, I.ExtendImm, B, Plus, UpperWord;
    UpperRecord(rd, pcRelative, imm);
    UpperSum(if pcRelative then a.pc else 0, imm);
    CoreAlu(m, I.LUI, if pcRelative then a.pc else 0, I.ExtendImm(Nat20(imm)));
    hide IsCore;
  }

  lemma MaskedImmediates(imm: bv32)
    requires imm < 0x1000
    ensures Sign12To20(imm) & 0xf_ffff == Sign12To20(imm) && (imm & 31) & 0xf_ffff == imm & 31
  {
  }

  lemma MaskedOffsets(w: bv32)
    ensures ImmJ(w) & 0xf_ffff == ImmJ(w) && ImmB(w) & 0xf_ffff == ImmB(w) && ImmU(w) & 0xf_ffff == ImmU(w)
    ensures ImmI(w) & 0xf_ffff == ImmI(w) && ImmS(w) & 0xf_ffff == ImmS(w)
  {
  }

  // ---------------------------------------------------------------------------
  // Quadrant 0
  // ---------------------------------------------------------------------------

  /** Half-words the simulator panics on; the core retires a NOP. */
  predicate Rejected(i: bv32) {
    var f := Cfunc3(i);
    || (i & 3 == 0 && f != 0 && f != 2 && f != 6)
    || (i & 3 == 2 && f != 0 && f != 2 && f != 4 && f != 6)
    || i & 3 == 3
  }

  /** The word forms of the register pair operations other than C.SUBW. */
  predicate ReservedPair(i: bv32) {
    i & 3 == 1 && Cfunc3(i) == 4 && (i >> 10) & 3 == 3 && Cfunc1(i) == 1 && (i >> 5) & 3 != 0
  }

  /** The half-words on which the two readings part, at least in some state: those the simulator
      panics on, the reserved C.ADDI4SPN with immediate 0 (a NOP against a copy of x2), the word form
      that is an addition against an exclusive or, the two that are a NOP against OR and AND unless the
      registers are the same, and the register-register encodings with rd = 0: a NOP against a
      breakpoint, or a breakpoint on both sides, which the simulator alone delegates. */
  predicate Divergent(i: bv32) {
    || Rejected(i)
    || (i & 3 == 0 && Cfunc3(i) == 0 && Q0Nzuimm(i) == 0)
    || (ReservedPair(i) && ((i >> 5) & 3 == 1 || CrdRs1p(i) != CrdRs2p(i)))
    || (i & 3 == 2 && Cfunc3(i) == 4 && CrdRs1(i) == 0)
  }

  lemma ConstantWords()
    ensures Decode(IType(1, 0, 0, 0, 0x73)) == Ebreak && Decode(0) == UnknownRow
  {
  }

  lemma NopWord(m: I.Machine, a: I.Arch)
    ensures CoreExecute(m, a, Decode(0), true) == Skip(a, true)
  {
    hide Decode, IType, Skip, CoreExecute;
    ConstantWords();
    NopCase(m, a, true);
  }

  /** A write that does nothing. */
  lemma WriteOrSkip(a: I.Arch, half: bool, rd: I.RegIdx, v: Word)
    requires rd != 0
    ensures SimAlu(a, half, rd, v) == Skip(a, half) <==> v == Read(a, rd)
  {
    assert Write(a.regs, rd, v)[rd] == v;
    assert v == a.regs[rd] ==> a.regs[rd := v] == a.regs;
  }

  lemma Addi4spn(m: I.Machine, a: I.Arch, i: bv32)
    requires Setting(m, a)
    ensures CoreExecute(m, a, Decode(IType(Q0Nzuimm(i), 2, 0, Q0Rdp(i), 0x13)), true) ==
              SimAlu(a, true, Popular(CrdRs2p(i)), Plus(Read(a, 2), Nat32(ImmCAddi4spn(i))))
  {
    hide Setting, Plus, Popular, Nat5, Nat32, Q0Nzuimm, Q0Rdp, CrdRs2p, ImmCAddi4spn, Sign12To20, ExtendImm, IType,
         Decode, CoreExecute, SimAlu, Read;
    Registers(i);
    IndexLiterals();
    ImmAddi4spn(i);
    MaskedImmediates(Q0Nzuimm(i));
    ImmediateRow(Q0Nzuimm(i), 2, 0, Q0Rdp(i));
    AluImmediate(m, a, I.ADD, Q0Rdp(i), 2, Sign12To20(Q0Nzuimm(i)), true);
  }

  lemma Lw(m: I.Machine, a: I.Arch, i: bv32)
    requires Setting(m, a)
    ensures CoreExecute(m, a, Decode(IType(Q0Uimm6(i), Q0Rs1p(i), 2, Q0Rdp(i), 0x03)), true) ==
              SimLoad(m, a, true, Popular(CrdRs2p(i)), Read(a, Popular(CrdRs1p(i))), Nat32(ImmCLwsw(i)), true, 2)
  {
    hide Setting, Popular, Nat5, Nat32, Q0Uimm6, Q0Rdp, Q0Rs1p, CrdRs2p, CrdRs1p, ImmCLwsw, Sign12To20, ExtendImm,
         IType, Decode, CoreExecute, SimLoad, Read;
    Registers(i);
    ImmMemory(i);
    MaskedImmediates(Q0Uimm6(i));
    SizeNumbers();
    LoadRow(Q0Uimm6(i), Q0Rs1p(i), Q0Rdp(i));
    LoadCase(m, a, I.LD, 2, Q0Rdp(i), Q0Rs1p(i), Sign12To20(Q0Uimm6(i)), true);
  }

  lemma Sw(m: I.Machine, a: I.Arch, i: bv32)
    requires Setting(m, a)
    ensures CoreExecute(m, a, Decode(SType(Q0Uimm6(i), Q0Rdp(i), Q0Rs1p(i), 2, 0x23)), true) ==
              SimStore(m, a, true, Read(a, Popular(CrdRs2p(i))), Read(a, Popular(CrdRs1p(i))), Nat32(ImmCLwsw(i)), 2)
  {
    hide Setting, Popular, Nat5, Nat32, Q0Uimm6, Q0Rdp, Q0Rs1p, CrdRs2p, CrdRs1p, ImmCLwsw, Sign12To20, ExtendImm,
         SType, Decode, CoreExecute, SimStore, Read;
    Registers(i);
    ImmMemory(i);
    MaskedImmediates(Q0Uimm6(i));
    SizeNumbers();
    StoreRow(Q0Uimm6(i), Q0Rdp(i), Q0Rs1p(i));
    StoreCase(m, a, 2, Q0Rs1p(i), Q0Rdp(i), Sign12To20(Q0Uimm6(i)), true);
  }

  lemma CopyOfX2(m: I.Machine, a: I.Arch, i: bv32)
    requires Setting(m, a) && Q0Nzuimm(i) == 0
    ensures SimAlu(a, true, Popular(CrdRs2p(i)), Plus(Read(a, 2), Nat32(ImmCAddi4spn(i)))) == Skip(a, true) <==>
              Read(a, 2) == Read(a, Popular(CrdRs2p(i)))
  {
    hide Setting, Nat32, ImmCAddi4spn, CrdRs2p, Read, Q0Nzuimm, SimAlu, Skip;
    ImmAddi4spn(i);
    ZeroImmediate();
    assert Sign12To20(0) == 0;
    WriteOrSkip(a, true, Popular(CrdRs2p(i)), Plus(Read(a, 2), Nat32(ImmCAddi4spn(i))));
  }

  lemma ZeroImmediate()
    ensures Nat32(ExtendImm(0)) == 0 && (0 as bv32) & 0xf_ffff == 0
  {
  }

  /** In quadrant 0 a state tells the readings of a divergent half-word apart, unless the copied x2 is
      already there. */
  lemma Q0Agrees(m: I.Machine, a: I.Arch, i: bv32)
    requires Setting(m, a) && i & 3 == 0
    ensures CoreShort(m, a, i) == SimShort(m, a, i) <==>
              !Divergent(i) || (Cfunc3(i) == 0 && Read(a, 2) == Read(a, Popular(CrdRs2p(i))))
  {
    hide Setting, Plus, Popular, Nat32, Q0Nzuimm, Q0Uimm6, Q0Rdp, Q0Rs1p, CrdRs1p, CrdRs2p, ImmCAddi4spn, ImmCLwsw,
         IType, SType, SimAlu, SimLoad, SimStore, CoreExecute, Decode, Read;
    NopWord(m, a);
    if Cfunc3(i) == 0 && Q0Nzuimm(i) == 0 {
      CopyOfX2(m, a, i);
    } else {
      Addi4spn(m, a, i);
      Lw(m, a, i);
      Sw(m, a, i);
    }
  }

  // ---------------------------------------------------------------------------
  // Quadrant 1
  // ---------------------------------------------------------------------------

  lemma ShamtBits(i: bv32)
    ensures ExtendImm(ImmCSlli(i) & 31) == ImmCSlli(i) & 31
    ensures (0x400 | ImmCSlli(i)) & 31 == ImmCSlli(i) & 31
    ensures (0x400 | ImmCSlli(i)) & 0x400 != 0 && ImmCSlli(i) & 0x400 == 0 && 0x400 | ImmCSlli(i) < 0x1000
  {
  }

  lemma ShiftImmediate(m: I.Machine, a: I.Arch, i: bv32, r: bv32, f3: bv32, imm: bv32, op: I.AluOp)
    requires Setting(m, a)
    requires r < 32 && ((f3 == 1 && op == I.SLL && imm == Q1Imm5(i)) || (f3 == 5 && op == I.SRL && imm == Q1Imm5(i))
                     || (f3 == 5 && op == I.SRA && imm == 0x400 | Q1Imm5(i)))
    ensures CoreExecute(m, a, Decode(IType(imm, r, f3, r, 0x13)), true) ==
              SimAlu(a, true, Nat5(r), Alu(op, Read(a, Nat5(r)), Nat32(ImmCSlli(i))))
  {
    hide Setting, Nat5, Nat32, Q1Imm5, ImmCSlli, ExtendImm, IType, Decode, CoreExecute, SimAlu, Read, ShiftLeft,
         ShiftRight, ShiftArith, Sign12To20;
    ImmAddi(i);
    ShamtBits(i);
    MaskedImmediates(imm);
    ImmediateRow(imm, r, f3, r);
    AluImmediate(m, a, op, r, r, imm & 31, true);
    ShiftAmounts(Read(a, Nat5(r)), ImmCSlli(i));
  }

  lemma Andi(m: I.Machine, a: I.Arch, i: bv32, r: bv32)
    requires Setting(m, a) && r < 32
    ensures CoreExecute(m, a, Decode(IType(Sign6(Q1Imm5(i)), r, 7, r, 0x13)), true) ==
              SimAlu(a, true, Nat5(r), Alu(I.AND, Read(a, Nat5(r)), Nat32(ImmCAddi(i))))
  {
    hide Setting, Alu, Nat5, Nat32, Q1Imm5, Sign6, ImmCAddi, ExtendImm, IType, Decode, CoreExecute, SimAlu, Read,
         Sign12To20;
    ImmAddi(i);
    MaskedImmediates(Sign6(Q1Imm5(i)));
    ImmediateRow(Sign6(Q1Imm5(i)), r, 7, r);
    AluImmediate(m, a, I.AND, r, r, Sign12To20(Sign6(Q1Imm5(i))), true);
  }

  lemma AddImmediate(m: I.Machine, a: I.Arch, i: bv32, rs: bv32, rd: bv32)
    requires Setting(m, a) && rs < 32 && rd < 32
    ensures CoreExecute(m, a, Decode(IType(Sign6(Q1Imm5(i)), rs, 0, rd, 0x13)), true) ==
              SimAlu(a, true, Nat5(rd), Alu(I.ADD, Read(a, Nat5(rs)), Nat32(ImmCAddi(i))))
  {
    hide Setting, Alu, Nat5, Nat32, Q1Imm5, Sign6, ImmCAddi, ExtendImm, IType, Decode, CoreExecute, SimAlu, Read,
         Sign12To20;
    ImmAddi(i);
    MaskedImmediates(Sign6(Q1Imm5(i)));
    ImmediateRow(Sign6(Q1Imm5(i)), rs, 0, rd);
    AluImmediate(m, a, I.ADD, rd, rs, Sign12To20(Sign6(Q1Imm5(i))), true);
  }

  lemma Addi16sp(m: I.Machine, a: I.Arch, i: bv32)
    requires Setting(m, a)
    ensures CoreExecute(m, a, Decode(IType(Sign10(Q1Nzimm9(i)), 2, 0, 2, 0x13)), true) ==
              SimAlu(a, true, 2, Plus(Read(a, 2), Nat32(ImmCAddi16sp(i))))
  {
    hide Setting, Plus, Nat5, Nat32, Q1Nzimm9, Sign10, ImmCAddi16sp, ExtendImm, IType, Decode, CoreExecute, SimAlu,
         Read, Sign12To20;
    IndexLiterals();
    ImmAddi16sp(i);
    MaskedImmediates(Sign10(Q1Nzimm9(i)));
    ImmediateRow(Sign10(Q1Nzimm9(i)), 2, 0, 2);
    AluImmediate(m, a, I.ADD, 2, 2, Sign12To20(Sign10(Q1Nzimm9(i))), true);
  }

  lemma LuiRow(w: bv32, rd: bv32, imm: bv32)
    requires Opcode(w) == 0x37 && Rd(w) == rd && ImmU(w) == imm
    ensures Decode(w) == Row(I.Alu(I.LUI), 0, rd, I.RdReg, 0, I.RsReg, 0, I.RsImm, imm)
  {
    hide Opcode, Rd, ImmU;
  }

  lemma UpperImmFits(i: bv32)
    ensures var imm := Sign6To20(Q1Imm5(i));
            imm & 0xf_ffff == imm && imm <= 0xf_ffff && (ExtendImm(imm) & 0xf_ffff) << 12 == ImmCLui(i)
  {
    ImmLui(i);
  }

  lemma LuiDecodes(imm: bv32, rd: bv32)
    requires imm <= 0xf_ffff && rd < 32
    ensures Decode(UType(imm, rd)) == Row(I.Alu(I.LUI), 0, rd, I.RdReg, 0, I.RsReg, 0, I.RsImm, imm)
  {
    hide UType, Opcode, Rd, ImmU, Decode;
    UpperFields(imm, rd);
    LuiRow(UType(imm, rd), rd, imm);
  }

  lemma Lui(m: I.Machine, a: I.Arch, i: bv32, rd: bv32)
    requires Setting(m, a) && rd < 32
    ensures CoreExecute(m, a, Decode(UType(Sign6To20(Q1Imm5(i)), rd)), true) ==
              SimAlu(a, true, Nat5(rd), Plus(0, Nat32(ImmCLui(i))))
  {
    hide Setting, UType, Sign6To20, Q1Imm5, Plus, Nat5, Nat32, ExtendImm, ImmCLui, Decode, CoreExecute, SimAlu;
    UpperImmFits(i);
    LuiDecodes(Sign6To20(Q1Imm5(i)), rd);
    UpperCase(m, a, rd, false, Sign6To20(Q1Imm5(i)), true);
  }

  /** The operation of a register row, by its function fields. */
  function RegisterOp(f7: bv32, f3: bv32): I.AluOp {
    if f3 == 0 then (if f7 & 0x20 != 0 then I.SUB else I.ADD) else if f3 == 4 then I.XOR else if f3 == 6 then I.OR
        else I.AND
  }

  ghost predicate PlainRegister(f7: bv32, f3: bv32) {
    (f7 == 0 || f7 == 0x20) && (f3 == 0 || f3 == 4 || f3 == 6 || f3 == 7)
  }

  lemma RegisterRowOf(w: bv32, f7: bv32, f3: bv32)
    requires Func3(w) == f3 && Func7(w) == f7 && PlainRegister(f7, f3)
    ensures DecodeAlu(w) == Row(I.Alu(RegisterOp(f7, f3)), 0, Rd(w), I.RdReg, Rs1(w), I.RsReg, Rs2(w), I.RsReg, 0)
  {
    hide Func3, Func7, Rd, Rs1, Rs2;
    assert (0 as bv32) & 1 == 0 && (0x20 as bv32) & 1 == 0;
  }

  lemma RegisterWordRow(w: bv32, f7: bv32)
    requires Func3(w) == 0 && Func7(w) == f7 && PlainRegister(f7, 0)
    ensures DecodeAluW(w) == Row(I.Alu(RegisterOp(f7, 0)), 3, Rd(w), I.RdReg, Rs1(w), I.RsReg, Rs2(w), I.RsReg, 0)
  {
    hide Func3, Func7, Rd, Rs1, Rs2;
    assert (0 as bv32) & 1 == 0 && (0x20 as bv32) & 1 == 0;
  }

  lemma PlainFits(f7: bv32, f3: bv32)
    requires PlainRegister(f7, f3)
    ensures f7 < 128 && f3 < 8
  {
  }

  lemma RegisterOperation(m: I.Machine, a: I.Arch, f7: bv32, rs2: bv32, rs1: bv32, f3: bv32, rd: bv32)
    requires Setting(m, a) && rs1 < 32 && rs2 < 32 && rd < 32 && PlainRegister(f7, f3)
    ensures CoreExecute(m, a, Decode(RType(f7, rs2, rs1, f3, rd)), true) ==
              SimAlu(a, true, Nat5(rd), Alu(RegisterOp(f7, f3), Read(a, Nat5(rs1)), Read(a, Nat5(rs2))))
  {
    hide Setting, Alu, Nat5, Decode, DecodeAlu, RType, Func3, Func7, Rd, Rs1, Rs2, CoreExecute, SimAlu, Read,
         RegisterOp, PlainRegister;
    PlainFits(f7, f3);
    RegisterRow(f7, rs2, rs1, f3, rd);
    RegisterRowOf(RType(f7, rs2, rs1, f3, rd), f7, f3);
    assert RegisterOp(f7, f3) != I.FENCE by { OperationIsPlain(f7, f3); }
    AluRegister(m, a, RegisterOp(f7, f3), 0, rd, rs1, rs2, true);
  }

  lemma OperationIsPlain(f7: bv32, f3: bv32)
    ensures RegisterOp(f7, f3) != I.FENCE
  {
  }

  lemma WordOperation(m: I.Machine, a: I.Arch, f7: bv32, rs2: bv32, rs1: bv32, rd: bv32)
    requires Setting(m, a) && rs1 < 32 && rs2 < 32 && rd < 32 && PlainRegister(f7, 0)
    ensures CoreExecute(m, a, Decode(RType(f7, rs2, rs1, 0, rd) | 8), true) ==
              SimAlu(a, true, Nat5(rd), Alu(RegisterOp(f7, 0), Read(a, Nat5(rs1)), Read(a, Nat5(rs2))))
  {
    hide Setting, Alu, Nat5, Decode, DecodeAluW, RType, Func3, Func7, Rd, Rs1, Rs2, CoreExecute, SimAlu, Read,
         RegisterOp, PlainRegister;
    PlainFits(f7, 0);
    RegisterRowW(f7, rs2, rs1, 0, rd);
    RegisterWordRow(RType(f7, rs2, rs1, 0, rd) | 8, f7);
    OperationIsPlain(f7, 0);
    AluRegister(m, a, RegisterOp(f7, 0), 3, rd, rs1, rs2, true);
  }

  lemma Opcode3(i: bv32)
    ensures var opcode3 := (((i >> 12) & 1) << 2) | ((i >> 5) & 3);
            && (Cfunc1(i) == 0 ==> opcode3 == (i >> 5) & 3)
            && (Cfunc1(i) != 0 ==> Cfunc1(i) == 1 && opcode3 == 4 + ((i >> 5) & 3))
            && (i >> 5) & 3 <= 3
  {
  }

  function PairF7(func21: bv32): bv32 { if func21 == 0 then 0x20 else 0 }

  function PairF3(func21: bv32): bv32 {
    if func21 == 0 then 0 else if func21 == 1 then 4 else if func21 == 2 then 6 else 7
  }

  lemma PairWord(i: bv32)
    requires (i >> 10) & 3 == 3
    ensures var func21 := (i >> 5) & 3;
            var w := RType(PairF7(func21), Q1Rs2p(i), Q1Rp(i), PairF3(func21), Q1Rp(i));
            && (Cfunc1(i) == 0 ==> DecompressAlu(i) == Expanded(w, false))
            && (Cfunc1(i) != 0 && func21 == 0 ==> DecompressAlu(i) == Expanded(w | 8, false))
            && (Cfunc1(i) != 0 && func21 == 1 ==>
                DecompressAlu(i) == Expanded(RType(0, Q1Rs2p(i), Q1Rp(i), 0, Q1Rp(i)) | 8, false))
            && (Cfunc1(i) != 0 && func21 >= 2 ==> DecompressAlu(i) == BAD_WORD)
  {
    Opcode3(i);
    hide RType, Q1Rs2p, Q1Rp, Q1Imm5, Sign6, IType, Cfunc1;
  }

  lemma SimPair(a: I.Arch, i: bv32)
    requires (i >> 10) & 3 == 3
    ensures var func21, rp, rs2p := (i >> 5) & 3, Nat5(Q1Rp(i)), Nat5(Q1Rs2p(i));
            SimQ1Alu(a, i) == SimAlu(a, true, rp,
                Alu(RegisterOp(PairF7(func21), PairF3(func21)), Read(a, rp), Read(a, rs2p)))
  {
    hide Minus, Gated, Popular, Nat5, Nat32, Q1Rp, Q1Rs2p, Q0Rdp, Q0Rs1p, CrdRs1p, CrdRs2p, Read, SimAlu, ShiftLeft,
         ShiftRight, ShiftArith, ImmCSlli, ImmCAddi;
    Registers(i);
  }

  lemma PairFields(func21: bv32)
    requires func21 <= 3
    ensures PlainRegister(PairF7(func21), PairF3(func21))
    ensures PairF7(0) == 0x20 && PairF3(0) == 0 && PlainRegister(0x20, 0) && PlainRegister(0, 0)
  {
  }

  lemma PlainPair(m: I.Machine, a: I.Arch, rp: bv32, rs2p: bv32, func21: bv32)
    requires Setting(m, a) && rp < 32 && rs2p < 32 && func21 <= 3
    ensures CoreExecute(m, a, Decode(RType(PairF7(func21), rs2p, rp, PairF3(func21), rp)), true) ==
              SimAlu(a, true, Nat5(rp), Alu(RegisterOp(PairF7(func21), PairF3(func21)), Read(a, Nat5(rp)),
                  Read(a, Nat5(rs2p))))
  {
    hide Setting, Decode, CoreExecute, RType, Nat5, Read, SimAlu, Alu, RegisterOp, PairF7, PairF3, PlainRegister;
    PairFields(func21);
    RegisterOperation(m, a, PairF7(func21), rs2p, rp, PairF3(func21), rp);
  }

  lemma WordPair(m: I.Machine, a: I.Arch, rp: bv32, rs2p: bv32)
    requires Setting(m, a) && rp < 32 && rs2p < 32
    ensures CoreExecute(m, a, Decode(RType(PairF7(0), rs2p, rp, PairF3(0), rp) | 8), true) ==
              SimAlu(a, true, Nat5(rp), Alu(RegisterOp(PairF7(0), PairF3(0)), Read(a, Nat5(rp)), Read(a, Nat5(rs2p))))
  {
    hide Setting, Decode, CoreExecute, RType, Nat5, Read, SimAlu, Alu, RegisterOp, PairF7, PairF3, PlainRegister;
    PairFields(0);
    WordOperation(m, a, 0x20, rs2p, rp, rp);
  }

  /** The register pair forms that mean the same: the plain ones, C.SUBW, and OR and AND of a register
      with itself. */
  predicate SafePair(i: bv32) {
    Cfunc1(i) == 0 || (i >> 5) & 3 == 0 || ((i >> 5) & 3 != 1 && CrdRs1p(i) == CrdRs2p(i))
  }

  lemma {:induction false} GateWithSelf(g: Gate, x: nat, width: nat)
    requires x < Pow2(width) && g != XorGate
    ensures Bitwise(g, x, x, width) == x
  {
    if width == 0 {
    } else {
      GateWithSelf(g, x / 2, width - 1);
    }
  }

  lemma PairWithSelf(func21: bv32, x: Word)
    requires func21 <= 3 && func21 >= 2
    ensures Alu(RegisterOp(PairF7(func21), PairF3(func21)), x, x) == x
  {
    hide Pow2, Bitwise;
    Pow2Of32();
    GateWithSelf(OrGate, x, 32);
    GateWithSelf(AndGate, x, 32);
  }

  lemma SelfPairAgrees(m: I.Machine, a: I.Arch, i: bv32)
    requires (i >> 10) & 3 == 3 && Cfunc1(i) != 0 && (i >> 5) & 3 >= 2 && CrdRs1p(i) == CrdRs2p(i)
    ensures CoreExpanded(m, a, DecompressAlu(i)) == SimQ1Alu(a, i)
  {
    hide Decode, CoreExecute, RType, Nat5, Q1Rp, Q1Rs2p, Q0Rdp, Q0Rs1p, CrdRs1p, CrdRs2p, Cfunc1, Read, SimAlu,
         SimQ1Alu, DecompressAlu, Alu, RegisterOp, PairF7, PairF3, Skip;
    Registers(i);
    Opcode3(i);
    PairWord(i);
    SimPair(a, i);
    NopWord(m, a);
    var r := Popular(CrdRs1p(i));
    PairWithSelf((i >> 5) & 3, Read(a, r));
    WriteOrSkip(a, true, r, Read(a, r));
  }

  lemma RegisterPairAgrees(m: I.Machine, a: I.Arch, i: bv32)
    requires Setting(m, a) && (i >> 10) & 3 == 3 && SafePair(i)
    ensures CoreExpanded(m, a, DecompressAlu(i)) == SimQ1Alu(a, i)
  {
    hide Setting, Decode, CoreExecute, RType, Nat5, Q1Rp, Q1Rs2p, Q0Rdp, Q0Rs1p, CrdRs1p, CrdRs2p, Cfunc1, Read, SimAlu,
         SimQ1Alu, DecompressAlu, Alu, RegisterOp, PairF7, PairF3;
    Registers(i);
    Opcode3(i);
    if Cfunc1(i) != 0 && (i >> 5) & 3 >= 2 {
      SelfPairAgrees(m, a, i);
    } else {
      PairWord(i);
      SimPair(a, i);
      if Cfunc1(i) == 0 {
        PlainPair(m, a, Q1Rp(i), Q1Rs2p(i), (i >> 5) & 3);
      } else {
        WordPair(m, a, Q1Rp(i), Q1Rs2p(i));
      }
    }
  }

  lemma AluShapes(a: I.Arch, i: bv32)
    requires (i >> 10) & 3 != 3
    ensures var opcode2, rp, r := (i >> 10) & 3, Q1Rp(i), Nat5(Q1Rp(i));
            && (opcode2 == 0 ==> DecompressAlu(i) == Expanded(IType(Q1Imm5(i), rp, 5, rp, 0x13), false)
                                 && SimQ1Alu(a, i) == SimAlu(a, true, r, ShiftRight(Read(a, r), Nat32(ImmCSlli(i)))))
            && (opcode2 == 1 ==> DecompressAlu(i) == Expanded(IType(0x400 | Q1Imm5(i), rp, 5, rp, 0x13), false)
                                 && SimQ1Alu(a, i) == SimAlu(a, true, r, ShiftArith(Read(a, r), Nat32(ImmCSlli(i)))))
            && (opcode2 == 2 ==> DecompressAlu(i) == Expanded(IType(Sign6(Q1Imm5(i)), rp, 7, rp, 0x13), false)
                                 && SimQ1Alu(a, i) == SimAlu(a, true, r,
                                     Gated(AndGate, Read(a, r), Nat32(ImmCAddi(i)))))
            && (opcode2 == 0 || opcode2 == 1 || opcode2 == 2)
  {
    hide Minus, Gated, Popular, Nat5, Nat32, IType, RType, Q1Rp, Q1Rs2p, Q0Rdp, Q0Rs1p, CrdRs1p, CrdRs2p, Read, SimAlu,
         ImmCSlli, ImmCAddi, Q1Imm5, Sign6, ShiftLeft, ShiftRight, ShiftArith;
    Registers(i);
  }

  lemma AluAgrees(m: I.Machine, a: I.Arch, i: bv32)
    requires Setting(m, a) && ((i >> 10) & 3 != 3 || SafePair(i))
    ensures CoreExpanded(m, a, DecompressAlu(i)) == SimQ1Alu(a, i)
  {
    hide Setting, Gated, Decode, CoreExecute, Nat5, Nat32, IType, RType, Q1Rp, Q1Rs2p, Q0Rdp, Q0Rs1p, CrdRs1p, CrdRs2p,
         Cfunc1, Read, SimAlu, ImmCSlli, ImmCAddi, Q1Imm5, Sign6, ShiftLeft, ShiftRight, ShiftArith, DecompressAlu,
         SimQ1Alu, SafePair;
    var opcode2, rp := (i >> 10) & 3, Q1Rp(i);
    Registers(i);
    if opcode2 == 3 {
      RegisterPairAgrees(m, a, i);
    } else {
      AluShapes(a, i);
      ShiftImmediate(m, a, i, rp, 5, Q1Imm5(i), I.SRL);
      ShiftImmediate(m, a, i, rp, 5, 0x400 | Q1Imm5(i), I.SRA);
      Andi(m, a, i, rp);
    }
  }

  lemma JumpDecodes(w: bv32, rd: bv32)
    requires Opcode(w) == 0x6f && Rd(w) == rd
    ensures Decode(w) == Row(I.Bru(I.JAL), 0, rd, I.RdRegAndPc, 0, I.RsPc, 0, I.RsImm, ImmJ(w))
  {
    hide Opcode, Rd, ImmJ;
  }

  lemma JumpWord(m: I.Machine, a: I.Arch, i: bv32, rd: bv32)
    requires Setting(m, a) && rd < 32
    ensures CoreExecute(m, a, Decode(CompressedJump(Q1Imm11(i), rd)), true) ==
              SimJal(a, true, Nat5(rd), a.pc, OffsetCJ(i))
  {
    hide Setting, CompressedJump, Q1Imm11, Opcode, Rd, ImmJ, ImmCJ, SignBit12, ExtendImm, Decode, CoreExecute, Nat5,
         Nat32, SimJal;
    ImmJump(i);
    JumpFields(Q1Imm11(i), rd);
    var w := CompressedJump(Q1Imm11(i), rd);
    JumpDecodes(w, rd);
    MaskedOffsets(w);
    JumpCase(m, a, rd, ImmJ(w), true);
  }

  lemma BranchDecodes(w: bv32, rs1: bv32, f3: bv32)
    requires Opcode(w) == 0x63 && Rs1(w) == rs1 && Rs2(w) == 0 && Func3(w) == f3 && (f3 == 0 || f3 == 1)
    ensures Decode(w) == Row(I.Bru(I.BEQ), if f3 == 1 then 3 else 0, 0, I.RdPc, rs1, I.RsReg, 0, I.RsReg, ImmB(w))
  {
    hide Opcode, Rs1, Rs2, ImmB, Func3;
  }

  // A compressed branch, decoded: its row and the offset the simulator adds
  lemma BeqzRow(imm: bv32, rs1: bv32)
    requires imm < 0x200 && imm & 1 == 0 && rs1 < 32
    ensures var w := CompressedBranch(imm, rs1, 0);
            Decode(w) == Row(I.Bru(I.BEQ), 0, 0, I.RdPc, rs1, I.RsReg, 0, I.RsReg, ImmB(w))
  {
    hide CompressedBranch, Opcode, Rs1, Rs2, Func3, ImmB, SignBit9, ExtendImm, Decode;
    BranchFields(imm, rs1, 0);
    BranchDecodes(CompressedBranch(imm, rs1, 0), rs1, 0);
  }

  lemma BnezRow(imm: bv32, rs1: bv32)
    requires imm < 0x200 && imm & 1 == 0 && rs1 < 32
    ensures var w := CompressedBranch(imm, rs1, 1);
            Decode(w) == Row(I.Bru(I.BEQ), 3, 0, I.RdPc, rs1, I.RsReg, 0, I.RsReg, ImmB(w))
  {
    hide CompressedBranch, Opcode, Rs1, Rs2, Func3, ImmB, SignBit9, ExtendImm, Decode;
    BranchFields(imm, rs1, 1);
    BranchDecodes(CompressedBranch(imm, rs1, 1), rs1, 1);
  }

  lemma BranchOffset(i: bv32, f3: bv32)
    requires f3 == 0 || f3 == 1
    ensures var imm := ImmB(CompressedBranch(Q1Imm8(i), Q1Rp(i), f3));
            imm & 0xf_ffff == imm && ExtendImm(imm) << 1 == ImmCB(i)
    ensures Q1Imm8(i) < 0x200 && Q1Imm8(i) & 1 == 0 && Q1Rp(i) < 32
  {
    hide CompressedBranch, Q1Imm8, Q1Rp, Q0Rs1p, Opcode, Rs1, Rs2, Func3, ImmB, ImmCB, SignBit9, ExtendImm, Nat5;
    ImmBranch(i);
    PopularFits(i);
    BranchFields(Q1Imm8(i), Q1Rp(i), f3);
    MaskedOffsets(CompressedBranch(Q1Imm8(i), Q1Rp(i), f3));
  }

  lemma PopularFits(i: bv32)
    ensures Q1Rp(i) < 32
  {
  }

  /** Equal to x0, or not. */
  lemma AgainstZero(m: I.Machine, a: I.Arch, invert: bool, rs1: bv32, imm: bv32, offset: I.Pc)
    requires Setting(m, a) && imm & 0xf_ffff == imm && offset == Nat32(ExtendImm(imm) << 1)
    ensures CoreExecute(m, a, Row(I.Bru(I.BEQ), if invert then 3 else 0, 0, I.RdPc, rs1, I.RsReg, 0, I.RsReg, imm),
              true) ==
              SimBranch(a, true, (Read(a, Nat5(rs1)) == 0) != invert, offset)
  {
    hide Setting, CoreExecute, Nat5, Nat32, ExtendImm, SimBranch;
    IndexLiterals();
    BranchCase(m, a, I.BEQ, invert, rs1, 0, imm, true, offset);
  }

  lemma BeqzWord(m: I.Machine, a: I.Arch, i: bv32)
    requires Setting(m, a)
    ensures CoreExecute(m, a, Decode(CompressedBranch(Q1Imm8(i), Q1Rp(i), 0)), true) ==
              SimBranch(a, true, Read(a, Popular(CrdRs1p(i))) == 0, OffsetCB(i))
  {
    hide Setting, CompressedBranch, Q1Imm8, Q1Rp, Q1Rs2p, Q0Rdp, Q0Rs1p, CrdRs1p, CrdRs2p, Popular, ImmB, ImmCB,
         ExtendImm, Decode, CoreExecute, Nat5, Nat32, SimBranch, Read;
    Registers(i);
    BranchOffset(i, 0);
    BeqzRow(Q1Imm8(i), Q1Rp(i));
    AgainstZero(m, a, false, Q1Rp(i), ImmB(CompressedBranch(Q1Imm8(i), Q1Rp(i), 0)), OffsetCB(i));
  }

  lemma BnezWord(m: I.Machine, a: I.Arch, i: bv32)
    requires Setting(m, a)
    ensures CoreExecute(m, a, Decode(CompressedBranch(Q1Imm8(i), Q1Rp(i), 1)), true) ==
              SimBranch(a, true, Read(a, Popular(CrdRs1p(i))) != 0, OffsetCB(i))
  {
    hide Setting, CompressedBranch, Q1Imm8, Q1Rp, Q1Rs2p, Q0Rdp, Q0Rs1p, CrdRs1p, CrdRs2p, Popular, ImmB, ImmCB,
         ExtendImm, Decode, CoreExecute, Nat5, Nat32, SimBranch, Read;
    Registers(i);
    BranchOffset(i, 1);
    BnezRow(Q1Imm8(i), Q1Rp(i));
    AgainstZero(m, a, true, Q1Rp(i), ImmB(CompressedBranch(Q1Imm8(i), Q1Rp(i), 1)), OffsetCB(i));
  }

  lemma Q1Agrees(m: I.Machine, a: I.Arch, i: bv32)
    requires Setting(m, a) && i & 3 == 1 && !Divergent(i)
    ensures CoreShort(m, a, i) == SimShort(m, a, i)
  {
    hide Setting, Plus, Popular, Decode, CoreExecute, IType, UType, CompressedJump, CompressedBranch, Q1R, CrdRs1, Q1Rp,
         CrdRs1p, Q0Rdp, Q0Rs1p, Q1Rs2p, CrdRs2p, Nat5, Nat32, Read, SimAlu, SimJal, SimBranch, ImmCAddi, ImmCAddi16sp,
         ImmCLui, OffsetCJ, OffsetCB, Q1Imm5, Q1Imm11, Q1Imm8, Q1Nzimm9, Sign6, Sign6To20, Sign10, DecompressAlu,
         SimQ1Alu, Cfunc1, Rejected;
    var f := Cfunc3(i);
    Registers(i);
    IndexLiterals();
    if f == 0 {
      AddImmediate(m, a, i, Q1R(i), Q1R(i));
    } else if f == 1 {
      JumpWord(m, a, i, 1);
    } else if f == 2 {
      AddImmediate(m, a, i, 0, Q1R(i));
      ReadZero(a);
    } else if f == 3 {
      Addi16sp(m, a, i);
      Lui(m, a, i, Q1R(i));
    } else if f == 4 {
      assert Cfunc1(i) == 0 || Cfunc1(i) == 1 by { Opcode3(i); }
      AluAgrees(m, a, i);
    } else if f == 5 {
      JumpWord(m, a, i, 0);
    } else if f == 6 {
      BeqzWord(m, a, i);
    } else {
      BnezWord(m, a, i);
    }
  }

  lemma ReadZero(a: I.Arch)
    ensures Read(a, 0) == 0
  {
  }

  // ---------------------------------------------------------------------------
  // Quadrant 2
  // ---------------------------------------------------------------------------

  lemma Slli(m: I.Machine, a: I.Arch, i: bv32)
    requires Setting(m, a)
    ensures CoreExecute(m, a, Decode(IType(Q1Imm5(i), Q1R(i), 1, Q1R(i), 0x13)), true) ==
              SimAlu(a, true, Nat5(Q1R(i)), ShiftLeft(Read(a, Nat5(Q1R(i))), Nat32(ImmCSlli(i))))
  {
    hide Setting, Nat5, Nat32, Decode, CoreExecute, IType, Q1R, CrdRs1, Read, SimAlu, ImmCSlli, Q1Imm5, ShiftLeft;
    Registers(i);
    ShiftImmediate(m, a, i, Q1R(i), 1, Q1Imm5(i), I.SLL);
  }

  lemma Lwsp(m: I.Machine, a: I.Arch, i: bv32)
    requires Setting(m, a)
    ensures CoreExecute(m, a, Decode(IType(Q2Uimm7(i), 2, 2, Q1R(i), 0x03)), true) ==
              SimLoad(m, a, true, Nat5(Q1R(i)), Read(a, 2), Nat32(ImmCLwsp(i)), true, 2)
  {
    hide Setting, Nat5, Nat32, Q2Uimm7, Q1R, CrdRs1, ImmCLwsp, Sign12To20, ExtendImm, IType, Decode, CoreExecute,
         SimLoad, Read;
    Registers(i);
    IndexLiterals();
    ImmStack(i);
    SizeNumbers();
    MaskedImmediates(Q2Uimm7(i));
    LoadRow(Q2Uimm7(i), 2, Q1R(i));
    LoadCase(m, a, I.LD, 2, Q1R(i), 2, Sign12To20(Q2Uimm7(i)), true);
  }

  lemma Swsp(m: I.Machine, a: I.Arch, i: bv32)
    requires Setting(m, a)
    ensures CoreExecute(m, a, Decode(SType(Q2Uimm27(i), Q2Rs2(i), 2, 2, 0x23)), true) ==
              SimStore(m, a, true, Read(a, Nat5(Q2Rs2(i))), Read(a, 2), Nat32(ImmCSwsp(i)), 2)
  {
    hide Setting, Nat5, Nat32, Q2Uimm27, Q2Rs2, Crs2, ImmCSwsp, Sign12To20, ExtendImm, SType, Decode, CoreExecute,
         SimStore, Read;
    Registers(i);
    IndexLiterals();
    ImmStack(i);
    SizeNumbers();
    MaskedImmediates(Q2Uimm27(i));
    StoreRow(Q2Uimm27(i), Q2Rs2(i), 2);
    StoreCase(m, a, 2, 2, Q2Rs2(i), Sign12To20(Q2Uimm27(i)), true);
  }

  lemma AddOrMove(m: I.Machine, a: I.Arch, i: bv32, rs1: bv32)
    requires Setting(m, a) && rs1 < 32
    ensures CoreExecute(m, a, Decode(RType(0, Q2Rs2(i), rs1, 0, Q1R(i))), true) ==
              SimAlu(a, true, Nat5(Q1R(i)), Plus(Read(a, Nat5(rs1)), Read(a, Nat5(Q2Rs2(i)))))
  {
    hide Setting, Plus, Nat5, Q2Rs2, Q1R, CrdRs1, Crs2, RType, Decode, CoreExecute, SimAlu, Read;
    Registers(i);
    PairFields(0);
    RegisterOperation(m, a, 0, Q2Rs2(i), rs1, 0, Q1R(i));
    assert RegisterOp(0, 0) == I.ADD;
  }

  lemma JalrRow(rs1: bv32, rd: bv32)
    requires rs1 < 32 && rd < 32
    ensures Decode(IType(0, rs1, 0, rd, 0x67)) == Row(I.Bru(I.JALR), 0, rd, I.RdRegAndPc, rs1, I.RsReg, 0, I.RsImm, 0)
  {
    hide IType, Opcode, Rd, Rs1, ImmI;
    ITypeRegs(0, rs1, 0, rd, 0x67);
    ITypeImm(0, rs1, 0, rd, 0x67);
    assert Sign12To20(0) == 0;
  }

  lemma JumpRegister(m: I.Machine, a: I.Arch, i: bv32, link: bv32)
    requires Setting(m, a) && (link == 0 || link == 1)
    ensures CoreExecute(m, a, Decode(IType(0, Q1R(i), 0, link, 0x67)), true) ==
              SimJal(a, true, Nat5(link), Read(a, Nat5(Q1R(i))), 0)
  {
    hide Setting, IType, Decode, Q1R, CrdRs1, Nat5, Nat32, ExtendImm, Read, CoreExecute, SimJal;
    Registers(i);
    JalrRow(Q1R(i), link);
    ZeroImmediate();
    JumpRegisterCase(m, a, link, Q1R(i), 0, true);
  }

  lemma CompressedEbreak(m: I.Machine, a: I.Arch)
    ensures CoreExecute(m, a, Decode(IType(1, 0, 0, 0, 0x73)), true) == Breakpoint(CoreBreak)
  {
    hide Decode, IType, CoreBreak;
    ConstantWords();
  }

  /** The two trap entries of a breakpoint are the same exactly where the exception is not delegated. */
  lemma BreakEntries(s: T.State)
    ensures CoreBreak(s) == SimBreak(s) <==> !(3 in s.medeleg && s.priv <= 1)
  {
  }

  /** Those of a faulting access are the same exactly where it is not delegated to user level. */
  lemma FaultEntries(s: T.State, code: nat, tval: Word)
    requires code < 32
    ensures CoreExcept(s, code, tval) == T.ExceptEnter(s, code, tval) <==>
              !(code in s.medeleg && code in s.sedeleg && s.priv == 0)
  {
  }

  const NO_BANK := T.Bank(0, 0, 0, 0, false, false, 0)

  /** User level, with breakpoints delegated to the supervisor. */
  const DELEGATING := T.State(0, 0, NO_BANK, NO_BANK, NO_BANK, {3}, {}, {}, {}, {}, {}, true)

  lemma BreakpointsPart()
    ensures Breakpoint(CoreBreak) != Breakpoint(SimBreak)
  {
    BreakEntries(DELEGATING);
    hide CoreBreak, SimBreak;
    assert Breakpoint(CoreBreak).enter(DELEGATING) != Breakpoint(SimBreak).enter(DELEGATING);
  }

  lemma Q2Jumps(m: I.Machine, a: I.Arch, i: bv32)
    requires Setting(m, a) && i & 3 == 2 && Cfunc3(i) == 4
    ensures CoreShort(m, a, i) == SimShort(m, a, i) <==> !Divergent(i)
  {
    hide CoreBreak, SimBreak, Setting, Plus, Nat5, Nat32, Decode, CoreExecute, IType, RType, Q1R, CrdRs1, Crs2, Q2Rs2,
         Read, SimAlu, SimJal, SimLoad, SimStore;
    Registers(i);
    IndexLiterals();
    ReadZero(a);
    AddOrMove(m, a, i, Q1R(i));
    AddOrMove(m, a, i, 0);
    JumpRegister(m, a, i, 0);
    JumpRegister(m, a, i, 1);
    CompressedEbreak(m, a);
    BreakpointsPart();
    NopWord(m, a);
  }

  lemma Q2Agrees(m: I.Machine, a: I.Arch, i: bv32)
    requires Setting(m, a) && i & 3 == 2
    ensures CoreShort(m, a, i) == SimShort(m, a, i) <==> !Divergent(i)
  {
    hide Setting, Plus, Nat5, Nat32, Decode, CoreExecute, IType, SType, RType, Q1R, CrdRs1, Crs2, Q2Rs2, Read, SimAlu,
         SimJal, SimLoad, SimStore, Q1Imm5, Q2Uimm7, Q2Uimm27, ImmCSlli, ImmCLwsp, ImmCSwsp, ShiftLeft;
    Registers(i);
    if Cfunc3(i) == 4 {
      Q2Jumps(m, a, i);
    } else {
      NopWord(m, a);
      Slli(m, a, i);
      Lwsp(m, a, i);
      Swsp(m, a, i);
    }
  }

  // ---------------------------------------------------------------------------
  // Every half-word
  // ---------------------------------------------------------------------------

  const ONES: I.Regs := [0, 1, 1, 1, 1, 1, 1, 1, 1, 1, 1, 1, 1, 1, 1, 1, 1, 1, 1, 1, 1, 1, 1, 1, 1, 1, 1, 1, 1, 1, 1, 1]

  /** A state in which every register but x0 and two given ones holds one. */
  function Telltale(mem: I.Mem, i: I.RegIdx, v: Word, j: I.RegIdx, w: Word): I.Arch {
    I.Arch(0, ONES[i := v][j := w][0 := 0], mem)
  }

  lemma TelltaleRead(m: I.Machine, mem: I.Mem, i: I.RegIdx, v: Word, j: I.RegIdx, w: Word)
    requires i == j ==> v == w
    ensures var a := Telltale(mem, i, v, j, w);
            && Read(a, i) == (if i == 0 then 0 else v) && Read(a, j) == (if j == 0 then 0 else w)
            && (IsCore(m) ==> Setting(m, a))
  {
    hide IsCore;
  }

  lemma PairFormsDiffer()
    ensures Alu(RegisterOp(PairF7(1), PairF3(1)), 1, 1) == 0
    ensures Alu(RegisterOp(0, 0), 1, 1) == 2
  {
    GatesOnBits();
    assert RegisterOp(PairF7(1), PairF3(1)) == I.XOR && RegisterOp(0, 0) == I.ADD;
  }

  lemma {:induction false} GateOfZeros(g: Gate, width: nat)
    ensures Bitwise(g, 0, 0, width) == 0
  {
    if width == 0 {
    } else {
      GateOfZeros(g, width - 1);
    }
  }

  lemma GatedBits(g: Gate, a: Word, b: Word)
    ensures Gated(g, a, b) == Bitwise(g, a, b, 32)
  {
    hide Pow2, Bitwise;
  }

  lemma BitwiseStep(g: Gate, p: nat, q: nat, width: nat)
    requires p <= 1 && q <= 1 && width > 0
    ensures Bitwise(g, p, q, width) == GateBit(g, p == 1, q == 1) + 2 * Bitwise(g, 0, 0, width - 1)
  {
    assert p / 2 == 0 && q / 2 == 0 && p % 2 == p && q % 2 == q;
  }

  lemma GateOfBits(g: Gate, p: nat, q: nat)
    requires p <= 1 && q <= 1
    ensures Gated(g, p, q) == GateBit(g, p == 1, q == 1)
  {
    hide Gated, Bitwise, GateBit;
    GateOfZeros(g, 31);
    BitwiseStep(g, p, q, 32);
    GatedBits(g, p, q);
  }

  lemma GatesOnBits()
    ensures Gated(XorGate, 1, 1) == 0 && Gated(XorGate, 0, 0) == 0
    ensures Gated(OrGate, 1, 1) == 1 && Gated(OrGate, 0, 1) == 1 && Gated(AndGate, 1, 1) == 1
              && Gated(AndGate, 1, 0) == 0
  {
    hide Gated;
    GateOfBits(XorGate, 1, 1);
    GateOfBits(XorGate, 0, 0);
    GateOfBits(OrGate, 1, 1);
    GateOfBits(OrGate, 0, 1);
    GateOfBits(AndGate, 1, 1);
    GateOfBits(AndGate, 1, 0);
  }

  lemma WritesDiffer(a: I.Arch, half: bool, rd: I.RegIdx, v: Word, w: Word)
    requires rd != 0 && v != w
    ensures SimAlu(a, half, rd, v) != SimAlu(a, half, rd, w)
  {
    assert Write(a.regs, rd, v)[rd] == v && Write(a.regs, rd, w)[rd] == w;
  }

  function TellingFirst(func21: bv32): Word { if func21 == 2 then 0 else 1 }
  function TellingSecond(func21: bv32): Word { if func21 == 3 then 0 else 1 }

  lemma TellingPair(func21: bv32)
    requires 1 <= func21 <= 3
    ensures var x, y := TellingFirst(func21), TellingSecond(func21);
            if func21 == 1 then Alu(RegisterOp(PairF7(1), PairF3(1)), x, y) != Alu(RegisterOp(0, 0), x, y)
            else Alu(RegisterOp(PairF7(func21), PairF3(func21)), x, y) != x
  {
    PairFormsDiffer();
    GatesOnBits();
    hide Gated;
  }

  lemma PopularNames(i: bv32)
    ensures Popular(CrdRs1p(i)) == Popular(CrdRs2p(i)) <==> CrdRs1p(i) == CrdRs2p(i)
  {
    PopularOnce(CrdRs1p(i), CrdRs2p(i));
    hide Popular;
  }

  lemma PopularOnce(r: bv32, s: bv32)
    requires r < 8 && s < 8
    ensures Popular(r) == Popular(s) ==> r == s
  {
    SumOfBits(B(r, 1), B(r, 2), B(r, 4), B(s, 1), B(s, 2), B(s, 4));
    assert B(r, 1) == B(s, 1) && B(r, 2) == B(s, 2) && B(r, 4) == B(s, 4) ==> r == s;
    hide B;
  }

  lemma SumOfBits(a: nat, b: nat, c: nat, x: nat, y: nat, z: nat)
    requires a <= 1 && b <= 1 && c <= 1 && x <= 1 && y <= 1 && z <= 1
    ensures a + 2 * b + 4 * c == x + 2 * y + 4 * z ==> a == x && b == y && c == z
  {
  }

  /** Registers of zero and one tell the reserved word forms apart. */
  lemma PairDiffers(m: I.Machine, i: bv32, mem: I.Mem) returns (a: I.Arch)
    requires IsCore(m) && (i >> 10) & 3 == 3 && Cfunc1(i) != 0 && (i >> 5) & 3 != 0
    requires (i >> 5) & 3 == 1 || CrdRs1p(i) != CrdRs2p(i)
    ensures Setting(m, a) && CoreExpanded(m, a, DecompressAlu(i)) != SimQ1Alu(a, i)
  {
    hide Decode, CoreExecute, RType, Nat5, Q1Rp, Q1Rs2p, Q0Rdp, Q0Rs1p, CrdRs1p, CrdRs2p, Cfunc1, Write, Read, SimQ1Alu,
         DecompressAlu, PairF3, PairF7, RegisterOp, Alu, IsCore, PlainRegister, SimAlu, Skip, Setting, Telltale,
         Popular;
    var rp, rs2p, func21 := Popular(CrdRs1p(i)), Popular(CrdRs2p(i)), (i >> 5) & 3;
    var x, y := TellingFirst(func21), TellingSecond(func21);
    a := Telltale(mem, rp, x, rs2p, y);
    Registers(i);
    PopularNames(i);
    PopularNotZero(CrdRs1p(i));
    PopularNotZero(CrdRs2p(i));
    TelltaleRead(m, mem, rp, x, rs2p, y);
    Opcode3(i);
    PairWord(i);
    SimPair(a, i);
    TellingPair(func21);
    if func21 == 1 {
      PairFields(0);
      WordOperation(m, a, 0, Q1Rs2p(i), Q1Rp(i), Q1Rp(i));
      WritesDiffer(a, true, rp, Alu(RegisterOp(0, 0), x, y), Alu(RegisterOp(PairF7(1), PairF3(1)), x, y));
    } else {
      NopWord(m, a);
      WriteOrSkip(a, true, rp, Alu(RegisterOp(PairF7(func21), PairF3(func21)), x, y));
    }
  }

  lemma PopularNotZero(r: bv32)
    ensures Popular(r) != 0
  {
  }

  lemma PairCase(m: I.Machine, a: I.Arch, i: bv32)
    requires i & 3 == 1 && Cfunc3(i) == 4
    ensures CoreShort(m, a, i) == CoreExpanded(m, a, DecompressAlu(i)) && SimShort(m, a, i) == SimQ1Alu(a, i)
  {
    hide CoreExecute, Decode, DecompressAlu, SimQ1Alu;
  }

  lemma RejectedDiffers(m: I.Machine, a: I.Arch, i: bv32)
    requires i & 3 == 3
    ensures CoreShort(m, a, i) != SimShort(m, a, i)
  {
    hide CoreExecute, Decode;
    NopWord(m, a);
  }

  /** A state in which the two readings of a divergent half-word differ. */
  lemma DivergentDiffers(m: I.Machine, i: bv32, mem: I.Mem) returns (a: I.Arch)
    requires IsCore(m) && Divergent(i)
    ensures Setting(m, a) && CoreShort(m, a, i) != SimShort(m, a, i)
  {
    if i & 3 == 1 {
      a := PairDiffers(m, i, mem);
      PairCase(m, a, i);
    } else {
      hide CoreShort, SimShort, IsCore, Setting, Read, CrdRs2p, Popular, Telltale;
      assert i & 3 == 0 || i & 3 == 2 || i & 3 == 3;
      var rd := Popular(CrdRs2p(i));
      a := Telltale(mem, 2, 1, rd, 0);
      PopularNotTwo(CrdRs2p(i));
      TelltaleRead(m, mem, 2, 1, rd, 0);
      if i & 3 == 0 { Q0Agrees(m, a, i); } else if i & 3 == 2 { Q2Agrees(m, a, i); } else { RejectedDiffers(m, a, i); }
    }
  }

  lemma PopularNotTwo(r: bv32)
    ensures Popular(r) != 2
  {
  }

  lemma ShortAgrees(m: I.Machine, a: I.Arch, i: bv32)
    requires Setting(m, a) && !Divergent(i)
    ensures CoreShort(m, a, i) == SimShort(m, a, i)
  {
    hide Setting;
    if i & 3 == 0 {
      Q0Agrees(m, a, i);
    } else if i & 3 == 1 {
      Q1Agrees(m, a, i);
    } else if i & 3 == 2 {
      Q2Agrees(m, a, i);
    }
  }

  /** The core and the simulator give a half-word the same meaning in every state exactly when it is
      not one of the divergent encodings. */
  lemma ShortMeaning(m: I.Machine, i: bv32)
    requires IsCore(m)
    ensures (forall a: I.Arch | Setting(m, a) :: CoreShort(m, a, i) == SimShort(m, a, i)) <==> !Divergent(i)
  {
    hide CoreShort, SimShort, Divergent, Setting, IsCore;
    if Divergent(i) {
      var a := DivergentDiffers(m, i, _ => 0);
    } else {
      forall a: I.Arch | Setting(m, a) ensures CoreShort(m, a, i) == SimShort(m, a, i) { ShortAgrees(m, a, i); }
    }
  }
}
