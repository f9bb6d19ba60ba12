/** The core and the simulator on the 32-bit base and multiply/divide instructions and the
    instruction fence. */
module Rv32Long {
  import opened Words
  import opened Rv32
  import opened Rv32Agree
  import I = Isa
  import M = Mdu

  function UpperVector(v: bv32): bv32 { (v & 0xf_ffff) << 12 }

  // ---------------------------------------------------------------------------
  // Immediates
  // ---------------------------------------------------------------------------

  lemma ImmediateI(w: bv32)
    ensures ExtendImm(ImmI(w)) == ImmTypeI(w)
  {
  }

  lemma ImmediateS(w: bv32)
    ensures ExtendImm(ImmS(w)) == ImmTypeS(w)
  {
  }

  lemma TwelveBits(v: bv32)
    requires v < 0x1000
    ensures ExtendImm(Sign12To20(v)) << 1 == SignBit13(v << 1)
  {
  }

  /** The offset of a branch before sign extension, in both layouts. */
  lemma BranchBits(w: bv32)
    ensures var v := (((w >> 31) & 1) << 11) | (((w >> 7) & 1) << 10) | (((w >> 25) & 0x3f) << 4) | ((w >> 8) & 15);
            && v < 0x1000
            && v << 1 ==
                 ((((((((w >> 31) & 1) << 1) | ((w >> 7) & 1)) << 6) | ((w >> 25) & 0x3f)) << 4) | ((w >> 8) & 15)) << 1
  {
  }

  lemma ImmediateB(w: bv32)
    ensures ExtendImm(ImmB(w)) << 1 == ImmTypeB(w)
  {
    hide ExtendImm, Sign12To20, SignBit13;
    BranchBits(w);
    TwelveBits((((w >> 31) & 1) << 11) | (((w >> 7) & 1) << 10) | (((w >> 25) & 0x3f) << 4) | ((w >> 8) & 15));
  }

  lemma TwentyBits(v: bv32)
    requires v & 0xf_ffff == v
    ensures ExtendImm(v) << 1 == SignBit21(v << 1)
  {
    if v & 0x8_0000 != 0 {
      assert (v | 0xfff0_0000) << 1 == (v << 1) | 0xfff0_0000;
    }
  }

  lemma UpperWordIgnoresSign(v: bv32)
    ensures UpperVector(v | 0xfff0_0000) == UpperVector(v) == v << 12
  {
  }

  lemma UpperTwenty(v: bv32)
    ensures UpperVector(ExtendImm(v)) == UpperVector(v)
  {
    hide UpperVector;
    UpperWordIgnoresSign(v);
  }

  lemma JumpBits(w: bv32)
    ensures ImmJ(w) & 0xf_ffff == ImmJ(w)
    ensures ImmJ(w) << 1 ==
              ((((((((w >> 31) & 1) << 8) | ((w >> 12) & 0xff)) << 1) | ((w >> 20) & 1)) << 10)
                | ((w >> 21) & 0x3ff)) << 1
  {
  }

  lemma ImmediateJ(w: bv32)
    ensures ExtendImm(ImmJ(w)) << 1 == ImmTypeJ(w)
  {
    hide ExtendImm, SignBit21, ImmJ;
    JumpBits(w);
    TwentyBits(ImmJ(w));
  }

  lemma UpperBits(w: bv32)
    ensures UpperVector(ImmU(w)) == ImmTypeU(w)
  {
  }

  lemma ImmediateU(w: bv32)
    ensures UpperVector(ExtendImm(ImmU(w))) == ImmTypeU(w)
  {
    hide ExtendImm, ImmU, ImmTypeU, UpperVector;
    UpperBits(w);
    UpperTwenty(ImmU(w));
  }

  lemma ShamtAgrees(w: bv32)
    ensures ExtendImm(Shamt(w)) == ImmTypeI(w) & 31
    ensures Func7(w) & 0x20 != 0 <==> w & 0x4000_0000 != 0
  {
  }

  lemma SimOpcode(m: I.Machine, a: I.Arch, w: bv32)
    ensures Opcode(w) == 0x63 ==> SimLong(m, a, w) == SimBranches(a, w)
    ensures Opcode(w) == 0x03 ==> SimLong(m, a, w) == SimLoads(m, a, w)
    ensures Opcode(w) == 0x23 ==> SimLong(m, a, w) == SimStores(m, a, w)
    ensures Opcode(w) == 0x13 ==> SimLong(m, a, w) == SimImmediates(a, w)
    ensures Opcode(w) == 0x33 ==> SimLong(m, a, w) == SimRegisters(a, w)
    ensures Opcode(w) == 0x0f ==> SimLong(m, a, w) == SimFence(a, w)
  {
    hide Opcode, SimBranches, SimLoads, SimStores, SimImmediates, SimRegisters, SimFence, SimAlu, SimJal, Rd, Rs1, Read,
         Plus, Nat5, Nat32;
  }

  // ---------------------------------------------------------------------------
  // Upper immediates and jumps
  // ---------------------------------------------------------------------------

  lemma UpperRow(w: bv32)
    requires Opcode(w) == 0x37 || Opcode(w) == 0x17
    ensures Decode(w) == Row(I.Alu(I.LUI), 0, Rd(w), I.RdReg, 0, if Opcode(w) == 0x17 then I.RsPc else I.RsReg, 0,
              I.RsImm, ImmU(w))
  {
    hide Opcode, Rd, ImmU;
  }

  lemma Upper(m: I.Machine, a: I.Arch, w: bv32)
    requires Setting(m, a) && (Opcode(w) == 0x37 || Opcode(w) == 0x17)
    ensures CoreLong(m, a, w) == SimLong(m, a, w)
  {
    hide Setting, Opcode, Rd, ImmU, Decode, CoreExecute, SimAlu, Plus, Nat5, Nat32, ExtendImm, ImmTypeU;
    UpperRow(w);
    ImmediateU(w);
    MaskedOffsets(w);
    UpperCase(m, a, Rd(w), Opcode(w) == 0x17, ImmU(w), false);
  }

  lemma JumpRow(w: bv32)
    requires Opcode(w) == 0x6f || Opcode(w) == 0x67
    ensures Decode(w) == if Opcode(w) == 0x6f
              then Row(I.Bru(I.JAL), 0, Rd(w), I.RdRegAndPc, 0, I.RsPc, 0, I.RsImm, ImmJ(w))
              else Row(I.Bru(I.JALR), 0, Rd(w), I.RdRegAndPc, Rs1(w), I.RsReg, 0, I.RsImm, ImmI(w))
  {
    hide Opcode, Rd, Rs1, ImmJ, ImmI;
  }

  lemma Jump(m: I.Machine, a: I.Arch, w: bv32)
    requires Setting(m, a) && (Opcode(w) == 0x6f || Opcode(w) == 0x67)
    ensures CoreLong(m, a, w) == SimLong(m, a, w)
  {
    hide Setting, Opcode, Rd, Rs1, ImmJ, ImmI, Decode, CoreExecute, SimJal, ExtendImm, Read, Nat5, Nat32, ImmTypeJ,
         ImmTypeI;
    JumpRow(w);
    MaskedOffsets(w);
    if Opcode(w) == 0x6f {
      ImmediateJ(w);
      JumpCase(m, a, Rd(w), ImmJ(w), false);
    } else {
      ImmediateI(w);
      JumpRegisterCase(m, a, Rd(w), Rs1(w), ImmI(w), false);
    }
  }

  // ---------------------------------------------------------------------------
  // Branches
  // ---------------------------------------------------------------------------

  lemma BranchRowOf(w: bv32)
    requires Opcode(w) == 0x63
    ensures Decode(w) == DecodeBranch(w)
  {
    hide Opcode, DecodeBranch;
  }

  predicate BranchKnown(f: bv32) { f == 0 || f == 1 || f == 4 || f == 5 || f == 6 || f == 7 }

  function BranchOp(f: bv32): (op: I.BruOp)
    ensures op == I.BEQ || op == I.BLT || op == I.BLTU
  {
    if f == 0 || f == 1 then I.BEQ else if f == 4 || f == 5 then I.BLT else I.BLTU
  }

  predicate BranchInverts(f: bv32) { f == 1 || f == 5 || f == 7 }

  lemma BranchTaken(m: I.Machine, a: I.Arch, op: I.BruOp, invert: bool, w: bv32)
    requires Setting(m, a) && (op == I.BEQ || op == I.BLT || op == I.BLTU)
    ensures CoreExecute(m, a, BranchRow(op, invert, w), false) ==
              SimBranch(a, false, I.Condition(op, Read(a, Nat5(Rs1(w))), Read(a, Nat5(Rs2(w)))) != invert,
                  OffsetTypeB(w))
  {
    hide Setting, CoreExecute, SimBranch, ExtendImm, Read, Rs1, Rs2, ImmB, ImmTypeB, Nat5, Nat32, I.Condition;
    ImmediateB(w);
    MaskedOffsets(w);
    BranchCase(m, a, op, invert, Rs1(w), Rs2(w), ImmB(w), false, OffsetTypeB(w));
  }

  lemma BranchCore(w: bv32)
    ensures DecodeBranch(w) == if BranchKnown(Func3(w)) then BranchRow(BranchOp(Func3(w)), BranchInverts(Func3(w)), w)
              else UnknownRow
  {
    hide Func3, BranchRow;
  }

  lemma BranchSim(a: I.Arch, w: bv32)
    ensures SimBranches(a, w) ==
              if BranchKnown(Func3(w))
              then SimBranch(a, false, I.Condition(BranchOp(Func3(w)), Read(a, Nat5(Rs1(w))),
                  Read(a, Nat5(Rs2(w)))) != BranchInverts(Func3(w)),
                             OffsetTypeB(w))
              else Unknown
  {
    hide Func3, Read, Rs1, Rs2, Nat5, SimBranch, OffsetTypeB, Signed;
  }

  lemma Branch(m: I.Machine, a: I.Arch, w: bv32)
    requires Setting(m, a) && Opcode(w) == 0x63
    ensures CoreLong(m, a, w) == SimLong(m, a, w) <==> BranchKnown(Func3(w))
  {
    hide Setting, Opcode, Rs1, Rs2, Nat5, Read, OffsetTypeB, Decode, DecodeBranch, SimBranch, SimBranches, BranchRow,
         Func3, CoreExecute, SimLong, BranchKnown, I.Condition, BranchInverts, BranchOp;
    SimOpcode(m, a, w);
    BranchRowOf(w);
    BranchCore(w);
    BranchSim(a, w);
    NopCase(m, a, false);
    BranchTaken(m, a, BranchOp(Func3(w)), BranchInverts(Func3(w)), w);
  }

  // ---------------------------------------------------------------------------
  // Loads and stores
  // ---------------------------------------------------------------------------

  lemma Func3Cases(w: bv32)
    ensures var f := Func3(w);
            f == 0 || f == 1 || f == 2 || f == 3 || f == 4 || f == 5 || f == 6 || f == 7
  {
  }

  lemma Func3Bits()
    ensures (0 as bv32) & 3 == 0 && (1 as bv32) & 3 == 1 && (2 as bv32) & 3 == 2 && (3 as bv32) & 3 == 3
    ensures (4 as bv32) & 3 == 0 && (5 as bv32) & 3 == 1 && (6 as bv32) & 3 == 2
    ensures (0 as bv32) & 4 == 0 && (1 as bv32) & 4 == 0 && (2 as bv32) & 4 == 0 && (3 as bv32) & 4 == 0
    ensures (4 as bv32) & 4 == 4 && (5 as bv32) & 4 == 4 && (6 as bv32) & 4 == 4 && (7 as bv32) & 4 == 4
  {
  }

  lemma LoadRowOf(w: bv32)
    requires Opcode(w) == 0x03
    ensures Decode(w) == if Func3(w) == 7 then UnknownRow
              else Row(I.Mem(if Func3(w) & 4 != 0 then I.LDU else I.LD), Func3(w) & 3, Rd(w), I.RdReg, Rs1(w), I.RsReg,
                  0,
                       I.RsImm, ImmI(w))
  {
    hide Opcode, Rd, Rs1, ImmI, Func3;
  }

  /** The loads of a 32-bit machine; the core also goes on over the others. */
  predicate LoadsAlike(f: bv32) { f == 0 || f == 1 || f == 2 || f == 4 || f == 5 }
  predicate StoresAlike(f: bv32) { f == 0 || f == 1 || f == 2 }

  function LoadOp(f: bv32): I.MemOp { if f == 4 || f == 5 then I.LDU else I.LD }
  function LoadSize(f: bv32): bv32 { if f == 1 || f == 5 then 1 else if f == 2 then 2 else 0 }
  function LoadWidth(f: bv32): nat { if f == 1 || f == 5 then 1 else if f == 2 then 2 else 0 }

  lemma LoadFields(f: bv32)
    requires LoadsAlike(f)
    ensures f & 3 == LoadSize(f) && (if f & 4 != 0 then I.LDU else I.LD) == LoadOp(f)
    ensures B(LoadSize(f), 1) + 2 * B(LoadSize(f), 2) == LoadWidth(f)
    ensures LoadSize(f) == 0 || LoadSize(f) == 1 || LoadSize(f) == 2
  {
    hide B;
    Func3Bits();
    SizeNumbers();
  }

  lemma LoadRowAlike(w: bv32)
    requires Opcode(w) == 0x03 && LoadsAlike(Func3(w))
    ensures Decode(w) == Row(I.Mem(LoadOp(Func3(w))), LoadSize(Func3(w)), Rd(w), I.RdReg, Rs1(w), I.RsReg, 0, I.RsImm,
              ImmI(w))
  {
    hide Opcode, Func3, Rd, Rs1, ImmI, Decode, LoadOp, LoadSize;
    LoadRowOf(w);
    LoadFields(Func3(w));
  }

  lemma LoadSim(m: I.Machine, a: I.Arch, w: bv32)
    ensures SimLoads(m, a, w) ==
              if LoadsAlike(Func3(w))
              then SimLoad(m, a, false, Nat5(Rd(w)), Read(a, Nat5(Rs1(w))), Nat32(ImmTypeI(w)),
                  LoadOp(Func3(w)) == I.LD, LoadWidth(Func3(w)))
              else Unknown
  {
    hide Func3, Rd, Rs1, Nat5, Nat32, Read, ImmTypeI, SimLoad;
  }

  lemma LoadKnown(m: I.Machine, a: I.Arch, w: bv32)
    requires Setting(m, a) && Opcode(w) == 0x03
    ensures CoreLong(m, a, w) == SimLong(m, a, w) <==> LoadsAlike(Func3(w))
  {
    hide Setting, Opcode, Rd, Rs1, ImmI, ImmTypeI, Func3, Decode, CoreExecute, ExtendImm, Read, Nat5, Nat32, B, SimLong,
         SimLoads, SimLoad, LoadOp, LoadSize, LoadWidth, LoadsAlike;
    SimOpcode(m, a, w);
    LoadSim(m, a, w);
    ImmediateI(w);
    MaskedOffsets(w);
    if LoadsAlike(Func3(w)) {
      LoadRowAlike(w);
      LoadFields(Func3(w));
      LoadCase(m, a, LoadOp(Func3(w)), LoadSize(Func3(w)), Rd(w), Rs1(w), ImmI(w), false);
    } else {
      LoadRowOf(w);
      RowsGoOn(m, a, Decode(w), false);
    }
  }

  lemma StoreRowOf(w: bv32)
    requires Opcode(w) == 0x23
    ensures Decode(w) == if Func3(w) & 4 != 0 then UnknownRow
              else Row(I.Mem(I.ST), Func3(w) & 3, 0, I.RdNone, Rs1(w), I.RsReg, Rs2(w), I.RsReg, ImmS(w))
  {
    hide Opcode, Rs2, Rs1, ImmS, Func3;
  }

  lemma StoreKnown(m: I.Machine, a: I.Arch, w: bv32)
    requires Setting(m, a) && Opcode(w) == 0x23
    ensures CoreLong(m, a, w) == SimLong(m, a, w) <==> StoresAlike(Func3(w))
  {
    hide Setting, Opcode, Rs1, Rs2, ImmS, ImmTypeS, Func3, Decode, CoreExecute, ExtendImm, Read, Plus, Nat5, Nat32, B,
         I.Store, I.Misaligned, SimLong;
    SimOpcode(m, a, w);
    StoreRowOf(w);
    ImmediateS(w);
    MaskedOffsets(w);
    Func3Cases(w);
    Func3Bits();
    SizeNumbers();
    if StoresAlike(Func3(w)) {
      StoreCase(m, a, Func3(w) & 3, Rs1(w), Rs2(w), ImmS(w), false);
    } else {
      RowsGoOn(m, a, Decode(w), false);
    }
  }

  // ---------------------------------------------------------------------------
  // Immediate and register operations
  // ---------------------------------------------------------------------------

  lemma AluImmRowOf(w: bv32)
    requires Opcode(w) == 0x13
    ensures Decode(w) == DecodeAluImm(w)
  {
    hide Opcode, DecodeAluImm;
  }

  lemma ShiftedImmediate(m: I.Machine, a: I.Arch, w: bv32, op: I.AluOp)
    requires Setting(m, a) && (op == I.SLL || op == I.SRL || op == I.SRA)
    ensures CoreExecute(m, a, AluRow(op, w, Shamt(w)), false) ==
              SimAlu(a, false, Nat5(Rd(w)), Alu(op, Read(a, Nat5(Rs1(w))), Nat32(ImmTypeI(w))))
  {
    hide Setting, ShiftLeft, ShiftRight, ShiftArith, Rd, Rs1, Nat5, Nat32, Read, ExtendImm, Shamt, ImmTypeI, SimAlu,
         CoreExecute;
    ShamtAgrees(w);
    ShamtFits(w);
    AluImmediate(m, a, op, Rd(w), Rs1(w), Shamt(w), false);
    ShiftAmounts(Read(a, Nat5(Rs1(w))), ImmTypeI(w));
  }

  lemma ShamtFits(w: bv32)
    ensures Shamt(w) & 0xf_ffff == Shamt(w)
  {
  }

  lemma PlainImmediate(m: I.Machine, a: I.Arch, w: bv32, op: I.AluOp)
    requires Setting(m, a) && op != I.FENCE
    ensures CoreExecute(m, a, AluRow(op, w, ImmI(w)), false) ==
              SimAlu(a, false, Nat5(Rd(w)), Alu(op, Read(a, Nat5(Rs1(w))), Nat32(ImmTypeI(w))))
  {
    hide Setting, Alu, Rd, Rs1, Nat5, Nat32, Read, ExtendImm, ImmI, ImmTypeI, SimAlu, CoreExecute;
    ImmediateI(w);
    MaskedOffsets(w);
    AluImmediate(m, a, op, Rd(w), Rs1(w), ImmI(w), false);
  }

  /** The operation of an immediate instruction, in the simulator's order. */
  function ImmediateOp(w: bv32): (op: I.AluOp)
    ensures op != I.FENCE
  {
    var f := Func3(w);
    if f == 0 then I.ADD else if f == 2 then I.SLT else if f == 3 then I.SLTU else if f == 4 then I.XOR
    else if f == 6 then I.OR else if f == 7 then I.AND else if f == 1 then I.SLL
    else if w & 0x4000_0000 != 0 then I.SRA else I.SRL
  }

  lemma ImmediateCore(m: I.Machine, a: I.Arch, w: bv32)
    requires Setting(m, a) && Opcode(w) == 0x13
    ensures CoreLong(m, a, w) ==
              SimAlu(a, false, Nat5(Rd(w)), Alu(ImmediateOp(w), Read(a, Nat5(Rs1(w))), Nat32(ImmTypeI(w))))
  {
    hide Setting, Opcode, Decode, CoreExecute, Alu, Rd, Rs1, Nat5, Nat32, Read, ImmI, ImmTypeI, Shamt, Func3, Func7,
         SimAlu, AluRow;
    AluImmRowOf(w);
    ShamtAgrees(w);
    Func3Cases(w);
    if Func3(w) == 1 || Func3(w) == 5 {
      ShiftedImmediate(m, a, w, ImmediateOp(w));
    } else {
      PlainImmediate(m, a, w, ImmediateOp(w));
    }
  }

  lemma ImmediateSim(m: I.Machine, a: I.Arch, w: bv32)
    requires Opcode(w) == 0x13
    ensures SimLong(m, a, w) == SimAlu(a, false, Nat5(Rd(w)),
              Alu(ImmediateOp(w), Read(a, Nat5(Rs1(w))), Nat32(ImmTypeI(w))))
  {
    hide SimLong, Opcode, Rd, Rs1, Nat5, Nat32, Read, ImmTypeI, Func3, SimAlu, Plus, Gated, ShiftLeft, ShiftRight,
         ShiftArith, Signed;
    SimOpcode(m, a, w);
    Func3Cases(w);
  }

  lemma Immediate(m: I.Machine, a: I.Arch, w: bv32)
    requires Setting(m, a) && Opcode(w) == 0x13
    ensures CoreLong(m, a, w) == SimLong(m, a, w)
  {
    hide *;
    ImmediateCore(m, a, w);
    ImmediateSim(m, a, w);
  }

  lemma RegisterRowDecodes(w: bv32)
    requires Opcode(w) == 0x33
    ensures Decode(w) == DecodeAlu(w)
  {
    hide Opcode, DecodeAlu;
  }

  lemma Func7Odd(w: bv32)
    ensures Func7(w) == 1 ==> Func7(w) & 1 != 0
  {
  }

  function RegisterAlu(f: bv32, alt: bool): (op: I.AluOp)
    ensures op != I.FENCE
  {
    if f == 0 then (if alt then I.SUB else I.ADD) else if f == 1 then I.SLL else if f == 2 then I.SLT
    else if f == 3 then I.SLTU else if f == 4 then I.XOR else if f == 5 then (if alt then I.SRA else I.SRL)
    else if f == 6 then I.OR else I.AND
  }

  /** The operation of a register word read as a base instruction. */
  function BaseOp(w: bv32): (op: I.AluOp)
    ensures op != I.FENCE
  {
    RegisterAlu(Func3(w), Func7(w) & 0x20 != 0)
  }

  lemma RegistersCore(m: I.Machine, a: I.Arch, w: bv32)
    requires Setting(m, a) && Opcode(w) == 0x33
    ensures var x, y := Read(a, Nat5(Rs1(w))), Read(a, Nat5(Rs2(w)));
            CoreLong(m, a, w) ==
              SimAlu(a, false, Nat5(Rd(w)),
                  if Func7(w) & 1 != 0 then M.Rv32M(MulOp(Func3(w)), x, y) else Alu(BaseOp(w), x, y))
  {
    hide Setting, Opcode, Rs1, Rs2, Rd, Nat5, Decode, CoreExecute, Read, SimAlu, Func3, Func7, Alu, M.Rv32M, MulOp;
    RegisterRowDecodes(w);
    AluRegister(m, a, BaseOp(w), 0, Rd(w), Rs1(w), Rs2(w), false);
    MulRegister(m, a, MulOp(Func3(w)), Rd(w), Rs1(w), Rs2(w));
  }

  lemma BaseOpValue(w: bv32, x: Word, y: Word)
    ensures var f, alt := Func3(w), w & 0x4000_0000 != 0;
            Alu(BaseOp(w), x, y) ==
            if f == 0 then (if alt then Minus(x, y) else Plus(x, y))
            else if f == 2 then (if Signed(x) < Signed(y) then 1 else 0)
            else if f == 3 then (if x < y then 1 else 0) else if f == 4 then Gated(XorGate, x, y)
            else if f == 6 then Gated(OrGate, x, y) else if f == 7 then Gated(AndGate, x, y)
            else if f == 1 then ShiftLeft(x, y)
            else if alt then ShiftArith(x, y) else ShiftRight(x, y)
  {
    hide Func3, Func7, Plus, Minus, Gated, ShiftLeft, ShiftRight, ShiftArith, Signed;
    ShamtAgrees(w);
    Func3Cases(w);
  }

  lemma RegistersSim(m: I.Machine, a: I.Arch, w: bv32)
    requires Opcode(w) == 0x33
    ensures var x, y := Read(a, Nat5(Rs1(w))), Read(a, Nat5(Rs2(w)));
            SimLong(m, a, w) ==
              SimAlu(a, false, Nat5(Rd(w)),
                  if Func7(w) == 1 then M.Rv32M(MulOp(Func3(w)), x, y) else Alu(BaseOp(w), x, y))
  {
    hide Opcode, Rs1, Rs2, Rd, Nat5, Read, SimAlu, Func3, Func7, M.Rv32M, M.SimM, MulOp, Plus, Minus, Gated, ShiftLeft,
         ShiftRight, ShiftArith, Signed, Alu, BaseOp, SimLong;
    SimOpcode(m, a, w);
    if Func7(w) == 1 {
      M.SimAgrees(MulOp(Func3(w)), Read(a, Nat5(Rs1(w))), Read(a, Nat5(Rs2(w))));
    } else {
      BaseOpValue(w, Read(a, Nat5(Rs1(w))), Read(a, Nat5(Rs2(w))));
    }
  }

  lemma FenceRow(w: bv32)
    requires Opcode(w) == 0x0f && Func3(w) & 1 != 0
    ensures Decode(w) == Row(I.Alu(I.FENCE), 0, 0, I.RdNone, 0, I.RsNone, 0, I.RsNone, 0)
  {
    hide Opcode, Func3;
  }

  /** To the core an instruction fence is one instruction behind which fetch starts anew. */
  lemma FenceCase(m: I.Machine, a: I.Arch)
    ensures CoreExecute(m, a, Row(I.Alu(I.FENCE), 0, 0, I.RdNone, 0, I.RsNone, 0, I.RsNone, 0), false) ==
              Skip(a, false)
  {
    hide Nat5, Nat20, B;
    IndexLiterals();
  }

  lemma Fence(m: I.Machine, a: I.Arch, w: bv32)
    requires Opcode(w) == 0x0f && Func3(w) & 1 != 0
    ensures CoreLong(m, a, w) == SimLong(m, a, w) <==> Func3(w) == 1
  {
    hide Opcode, Func3, Decode, CoreExecute, SimLong;
    SimOpcode(m, a, w);
    FenceRow(w);
    FenceCase(m, a);
    assert (0 as bv32) & 1 == 0;
  }

  // ---------------------------------------------------------------------------
  // Every 32-bit word of these opcodes
  // ---------------------------------------------------------------------------

  /** Words the core does not hand to its system and atomic units, and EBREAK. */
  predicate Modelled(w: bv32) {
    (Opcode(w) == 0x73 ==> EbreakWord(w)) && Opcode(w) != 0x2f && (Opcode(w) == 0x0f ==> Func3(w) & 1 != 0)
  }

  /** Opcodes the simulator has a case for. */
  predicate Listed(w: bv32) {
    var opc := Opcode(w);
    || opc == 0x37 || opc == 0x17 || opc == 0x6f || opc == 0x67 || opc == 0x63 || opc == 0x03 || opc == 0x23
        || opc == 0x13
    || opc == 0x33 || opc == 0x2f || opc == 0x0f || opc == 0x73
  }

  /** Register words whose function field is odd but not the multiply/divide one: the core looks at
      its lowest bit only, the simulator at the whole field. The result is dropped for rd = 0, and
      with x0 as operand some pairs of operations happen to coincide. */
  predicate FalseMultiply(w: bv32) {
    var f := Func3(w);
    && Opcode(w) == 0x33 && Func7(w) & 1 != 0 && Func7(w) != 1 && Rd(w) != 0
    && ((f == 0 || f == 2) ==> Rs1(w) != 0 || Rs2(w) != 0)
    && ((f == 1 || f == 7) ==> Rs1(w) != 0)
    && ((f == 3 || f == 6) ==> Rs2(w) != 0)
  }

  /** The words on which the two readings part, at least in some state. On an opcode it does not list
      the simulator stays where it is, on an unknown function code it panics; the core goes on over
      both. */
  predicate DivergentLong(w: bv32) {
    || !Listed(w)
    || (Opcode(w) == 0x63 && !BranchKnown(Func3(w)))
    || (Opcode(w) == 0x03 && !LoadsAlike(Func3(w)))
    || (Opcode(w) == 0x23 && !StoresAlike(Func3(w)))
    || (Opcode(w) == 0x0f && Func3(w) & 1 != 0 && Func3(w) != 1)
    || FalseMultiply(w)
    || EbreakWord(w)
  }

  // Values that tell a product from a base operation
  lemma SignedMax()
    ensures M.Rv32M(M.MULHSU, 0xffff_ffff, 0xffff_ffff) == 0xffff_ffff
    ensures M.Rv32M(M.MULHU, 0xffff_ffff, 0xffff_ffff) == 0xffff_fffe
  {
    assert Signed(0xffff_ffff) == -1;
    assert (-1 * 0xffff_ffff) / 0x1_0000_0000 == -1;
    assert 0xffff_ffff * 0xffff_ffff == 0xffff_fffe * 0x1_0000_0000 + 1;
  }

  lemma ProductsByZero(x: Word)
    ensures M.Rv32M(M.MUL, 0, 0) == 0 && M.Rv32M(M.MULH, 0, x) == 0 && M.Rv32M(M.MULHSU, 0, x) == 0
    ensures M.Rv32M(M.MULHSU, x, 0) == 0 && M.Rv32M(M.MULHU, 0, x) == 0 && M.Rv32M(M.MULHU, x, 0) == 0
  {
  }

  lemma QuotientsByZero(x: Word)
    ensures M.Rv32M(M.DIV, 0, 0) == 0xffff_ffff == M.Rv32M(M.DIVU, 0, 0)
    ensures M.Rv32M(M.REM, x, 0) == x && M.Rv32M(M.REMU, 0, x) == 0
  {
  }

  lemma SmallProducts()
    ensures M.Rv32M(M.MUL, 1, 1) == 1 && M.Rv32M(M.MUL, 0, 1) == 0 && M.Rv32M(M.MUL, 1, 0) == 0
    ensures M.Rv32M(M.MULH, 1, 1) == 0 && M.Rv32M(M.MULH, 1, 0) == 0
    ensures M.Rv32M(M.REM, 1, 1) == 0 && M.Rv32M(M.REM, 0, 1) == 0
    ensures M.Rv32M(M.REMU, 1, 1) == 0 && M.Rv32M(M.REMU, 1, 0) == 1
  {
  }

  // What the base operations make of the same operands
  lemma {:induction false} GateWithZero(x: nat, width: nat)
    requires x < Pow2(width)
    ensures Bitwise(OrGate, x, 0, width) == x && Bitwise(AndGate, 0, x, width) == 0
  {
    if width == 0 {
    } else {
      GateWithZero(x / 2, width - 1);
    }
  }

  lemma ShiftOfZero(p: nat)
    ensures ToWord(0 * p) == 0
  {
  }

  lemma BaseByZero(x: Word)
    ensures Minus(0, 0) == 0 && Gated(XorGate, 0, 0) == 0 && ShiftLeft(0, x) == 0
    ensures Gated(AndGate, 0, x) == 0 && Gated(OrGate, x, 0) == x
  {
    hide Pow2, Bitwise;
    ShiftOfZero(Pow2(x % 32));
    GatesWithZero(x);
    hide Gated;
    GatesOnBits();
  }

  lemma GatesWithZero(x: Word)
    ensures Gated(AndGate, 0, x) == 0 && Gated(OrGate, x, 0) == x
  {
    hide Bitwise;
    Pow2Of32();
    GateWithZero(x, 32);
  }

  lemma SmallDifferences()
    ensures Minus(1, 1) == 0 && Minus(0, 1) == 0xffff_ffff && Minus(1, 0) == 1
  {
  }

  lemma SmallLeftShifts()
    ensures ShiftLeft(1, 1) == 2 && ShiftLeft(1, 0) == 1
  {
    assert 1 % 32 == 1 && 0 % 32 == 0 && Pow2(1) == 2 * Pow2(0);
  }

  lemma SmallRightShifts()
    ensures ShiftRight(0, 0) == 0 && ShiftArith(0, 0) == 0
  {
    assert 0 % 32 == 0 && Pow2(0) == 1 && Signed(0) == 0;
  }

  /** Operands on which the two operations of a function field part, given which are x0. */
  function TellingValue(f: bv32, firstZero: bool): Word {
    if f == 4 || f == 5 then 0 else if f == 3 || (f == 2 && !firstZero) then 0xffff_ffff else 1
  }

  lemma Telling(f: bv32, alt: bool, zero1: bool, zero2: bool)
    requires f == 0 || f == 1 || f == 2 || f == 3 || f == 4 || f == 5 || f == 6 || f == 7
    requires (f == 0 || f == 2) ==> !zero1 || !zero2
    requires (f == 1 || f == 7) ==> !zero1
    requires (f == 3 || f == 6) ==> !zero2
    ensures var v := TellingValue(f, zero1);
            var x, y := if zero1 then 0 else v, if zero2 then 0 else v;
            M.Rv32M(MulOp(f), x, y) != Alu(RegisterAlu(f, alt), x, y)
  {
    hide M.Rv32M, Minus, Gated, ShiftLeft, ShiftRight, ShiftArith;
    if f == 2 || f == 3 {
      SignedMax();
      ProductsByZero(0xffff_ffff);
      ProductsByZero(1);
    } else if f == 4 || f == 5 {
      QuotientsByZero(0);
      BaseByZero(0);
      SmallRightShifts();
    } else {
      SmallProducts();
      SmallDifferences();
      SmallLeftShifts();
      GatesOnBits();
    }
  }

  lemma Coinciding(f: bv32, alt: bool, x: Word, y: Word)
    requires ((f == 0 || f == 2) && x == 0 && y == 0) || ((f == 1 || f == 7) && x == 0)
               || ((f == 3 || f == 6) && y == 0)
    ensures M.Rv32M(MulOp(f), x, y) == Alu(RegisterAlu(f, alt), x, y)
  {
    hide M.Rv32M, Minus, Gated, ShiftLeft, ShiftRight, ShiftArith;
    ProductsByZero(x);
    ProductsByZero(y);
    QuotientsByZero(x);
    QuotientsByZero(y);
    BaseByZero(x);
    BaseByZero(y);
  }

  lemma Discarded(a: I.Arch, v: Word, w: Word)
    ensures SimAlu(a, false, 0, v) == SimAlu(a, false, 0, w)
  {
  }

  lemma RegisterIndices(w: bv32)
    ensures Rd(w) < 32 && Rs1(w) < 32 && Rs2(w) < 32
    ensures (Nat5(Rd(w)) == 0 <==> Rd(w) == 0) && (Nat5(Rs1(w)) == 0 <==> Rs1(w) == 0)
              && (Nat5(Rs2(w)) == 0 <==> Rs2(w) == 0)
  {
    hide Nat5;
    IndexZero(Rd(w));
    IndexZero(Rs1(w));
    IndexZero(Rs2(w));
  }

  lemma RegistersAgree(m: I.Machine, a: I.Arch, w: bv32)
    requires Setting(m, a) && Opcode(w) == 0x33 && !FalseMultiply(w)
    ensures CoreLong(m, a, w) == SimLong(m, a, w)
  {
    hide Setting, Opcode, Rs1, Rs2, Rd, Nat5, SimAlu, Func3, Func7, M.Rv32M, Alu, RegisterAlu, MulOp, CoreLong, SimLong,
         Read;
    RegistersCore(m, a, w);
    RegistersSim(m, a, w);
    Func7Odd(w);
    Func3Cases(w);
    ReadZero(a);
    RegisterIndices(w);
    var x, y, f := Read(a, Nat5(Rs1(w))), Read(a, Nat5(Rs2(w))), Func3(w);
    if Func7(w) & 1 != 0 && Func7(w) != 1 {
      if Rd(w) == 0 {
        Discarded(a, M.Rv32M(MulOp(f), x, y), Alu(BaseOp(w), x, y));
      } else {
        Coinciding(f, Func7(w) & 0x20 != 0, x, y);
      }
    }
  }

  lemma FalseMultiplyDiffers(m: I.Machine, w: bv32, mem: I.Mem) returns (a: I.Arch)
    requires IsCore(m) && FalseMultiply(w)
    ensures Setting(m, a) && CoreLong(m, a, w) != SimLong(m, a, w)
  {
    hide IsCore, Opcode, Rs1, Rs2, Rd, Nat5, SimAlu, Func3, Func7, M.Rv32M, Alu, RegisterAlu, MulOp, CoreLong, SimLong,
         TellingValue, Read, Telltale, Setting;
    var v, i, j := TellingValue(Func3(w), Rs1(w) == 0), Nat5(Rs1(w)), Nat5(Rs2(w));
    a := Telltale(mem, i, v, j, v);
    TelltaleRead(m, mem, i, v, j, v);
    RegisterIndices(w);
    RegistersCore(m, a, w);
    RegistersSim(m, a, w);
    Func3Cases(w);
    Telling(Func3(w), Func7(w) & 0x20 != 0, Rs1(w) == 0, Rs2(w) == 0);
    WritesDiffer(a, false, Nat5(Rd(w)), M.Rv32M(MulOp(Func3(w)), Read(a, i), Read(a, j)),
        Alu(BaseOp(w), Read(a, i), Read(a, j)));
  }

  /** The ways a row of the decoder can be shaped. */
  ghost predicate LegalRow(r: Row) {
    r.Row? ==>
      && (r.rd == 0 || r.rdSel == I.RdReg || r.rdSel == I.RdRegAndPc)
      && (r.op.Bru? <==> (r.rdSel == I.RdPc || r.rdSel == I.RdRegAndPc))
      && (r.op == I.Alu(I.FENCE) ==> r.rdSel == I.RdNone)
      && (r.op == I.Mem(I.ST) ==> r.rdSel == I.RdNone && r.rs2Sel == I.RsReg)
      && (r.op == I.Mem(I.LD) || r.op == I.Mem(I.LDU) ==> r.rdSel == I.RdReg)
  }

  lemma LegalFields(r: Row)
    requires r.Row? && LegalRow(r)
    ensures I.WellFormed(FieldsOf(r))
  {
    hide Nat20, Nat5, B;
    IndexLiterals();
  }

  lemma BaseRowsLegal(w: bv32)
    ensures LegalRow(DecodeBranch(w)) && LegalRow(DecodeAluImm(w))
  {
    hide Func3, Func7, Rd, Rs1, Rs2, ImmI, ImmB, Shamt;
  }

  lemma RegisterRowLegal(w: bv32)
    ensures LegalRow(DecodeAlu(w))
  {
    hide Func3, Func7, Rd, Rs1, Rs2, MulOp;
  }

  lemma RegisterWordLegal(w: bv32)
    ensures LegalRow(DecodeAluW(w))
  {
    hide Func3, Func7, Rd, Rs1, Rs2, MulOp, DecodeAlu;
    RegisterRowLegal(w);
    LegalResized(DecodeAlu(w));
  }

  lemma LegalResized(r: Row)
    requires r.Row? && LegalRow(r)
    ensures LegalRow(r.(size := 3))
  {
  }

  lemma WordRowsLegal(w: bv32)
    ensures LegalRow(DecodeAluImmW(w))
  {
    hide Func3, Func7, Rd, Rs1, ImmI, Shamt;
  }

  lemma DecodedLegal(w: bv32)
    ensures LegalRow(Decode(w))
  {
    hide Opcode, Func3, Func7, Rd, Rs1, Rs2, ImmI, ImmS, ImmJ, ImmU, DecodeBranch, DecodeAluImm, DecodeAlu,
         DecodeAluImmW, DecodeAluW;
    BaseRowsLegal(w);
    RegisterRowLegal(w);
    RegisterWordLegal(w);
    WordRowsLegal(w);
  }

  /** Every row of the field decoder has the shape the pipe is proved for, so that DecodeRow never
      puts a NOP in its place. */
  lemma RowsAreLegal(w: bv32)
    ensures Decode(w).Row? ==> I.WellFormed(FieldsOf(Decode(w))) && DecodeRow(Decode(w)) == FieldsOf(Decode(w))
  {
    hide Decode, LegalRow, FieldsOf, I.WellFormed;
    DecodedLegal(w);
    if Decode(w).Row? { LegalFields(Decode(w)); }
  }

  lemma EbreakField(w: bv32)
    requires (w >> 20) & 0xfff == 1
    ensures Func7(w) == 0
  {
  }

  lemma EbreakRow(w: bv32)
    requires EbreakWord(w)
    ensures Decode(w) == Ebreak
  {
    hide Opcode, Func3, Func7;
    EbreakField(w);
  }

  lemma EbreakSim(m: I.Machine, a: I.Arch, w: bv32)
    requires EbreakWord(w)
    ensures SimLong(m, a, w) == Breakpoint(SimBreak)
  {
    hide Opcode, Func3, SimBreak, SimBranches, SimLoads, SimStores, SimImmediates, SimRegisters, SimFence, SimAlu,
         SimJal, Rd, Rs1, Read, Plus, Nat5, Nat32;
  }

  /** A breakpoint enters its trap differently where the exception is delegated. */
  lemma EbreakParts(m: I.Machine, a: I.Arch, w: bv32)
    requires EbreakWord(w)
    ensures CoreLong(m, a, w) != SimLong(m, a, w)
  {
    hide CoreBreak, SimBreak, Decode, EbreakWord, SimLong;
    EbreakRow(w);
    EbreakSim(m, a, w);
    BreakpointsPart();
  }

  // Opcodes the simulator does not list
  lemma UnlistedRow(w: bv32)
    requires !Listed(w)
    ensures Decode(w) == if Opcode(w) == 0x1b then DecodeAluImmW(w) else if Opcode(w) == 0x3b then DecodeAluW(w)
              else UnknownRow
  {
    hide Opcode, DecodeAluImmW, DecodeAluW;
  }

  /** To the core a 64-bit word operation is the 32-bit one. */
  lemma WordRows(w: bv32)
    ensures var r := DecodeAluImmW(w); r.UnknownRow? || (r.Row? && (r.op.Alu? || r.op.Mul?) && r.op != I.Alu(I.FENCE))
    ensures var r := DecodeAluW(w); r.UnknownRow? || (r.Row? && (r.op.Alu? || r.op.Mul?) && r.op != I.Alu(I.FENCE))
  {
    hide Func3, Func7, Rd, Rs1, Rs2, Shamt, ImmI, MulOp;
  }

  lemma WordRowMoves(m: I.Machine, a: I.Arch, r: Row)
    requires r.UnknownRow? || (r.Row? && (r.op.Alu? || r.op.Mul?))
    ensures CoreExecute(m, a, r, false).Next? && CoreExecute(m, a, r, false).a.pc == I.NextPc(a.pc, false)
  {
    hide Nat5, Nat20, B, I.WellFormed, M.Rv32M;
  }

  lemma NextIsElsewhere(pc: I.Pc)
    ensures I.NextPc(pc, false) != pc
  {
  }

  lemma Unlisted(m: I.Machine, a: I.Arch, w: bv32)
    requires !Listed(w)
    ensures CoreLong(m, a, w) != SimLong(m, a, w)
  {
    hide Opcode, Decode, DecodeAluImmW, DecodeAluW, CoreExecute, I.NextPc;
    UnlistedRow(w);
    WordRows(w);
    WordRowMoves(m, a, Decode(w));
    NextIsElsewhere(a.pc);
    UnlistedSim(m, a, w);
  }

  lemma UnlistedSim(m: I.Machine, a: I.Arch, w: bv32)
    requires !Listed(w)
    ensures SimLong(m, a, w) == Next(a, [])
  {
    hide Opcode, SimBranches, SimLoads, SimStores, SimImmediates, SimRegisters, SimFence, SimAlu, SimJal, Rd, Rs1, Read,
         Plus, Nat5, Nat32;
  }

  lemma LongAgrees(m: I.Machine, a: I.Arch, w: bv32)
    requires Setting(m, a) && Modelled(w) && !DivergentLong(w)
    ensures CoreLong(m, a, w) == SimLong(m, a, w)
  {
    hide Setting, Opcode, Func3, FalseMultiply, CoreLong, SimLong;
    var opc := Opcode(w);
    if opc == 0x37 || opc == 0x17 {
      Upper(m, a, w);
    } else if opc == 0x6f || opc == 0x67 {
      Jump(m, a, w);
    } else if opc == 0x63 {
      Branch(m, a, w);
    } else if opc == 0x03 {
      LoadKnown(m, a, w);
    } else if opc == 0x23 {
      StoreKnown(m, a, w);
    } else if opc == 0x13 {
      Immediate(m, a, w);
    } else if opc == 0x0f {
      Fence(m, a, w);
    } else {
      RegistersAgree(m, a, w);
    }
  }

  lemma DivergentLongDiffers(m: I.Machine, w: bv32, mem: I.Mem) returns (a: I.Arch)
    requires IsCore(m) && Modelled(w) && DivergentLong(w)
    ensures Setting(m, a) && CoreLong(m, a, w) != SimLong(m, a, w)
  {
    hide IsCore, Opcode, Func3, FalseMultiply, CoreLong, SimLong, BranchKnown, LoadsAlike, StoresAlike, Setting,
         Telltale, EbreakWord;
    if FalseMultiply(w) {
      a := FalseMultiplyDiffers(m, w, mem);
    } else {
      a := Telltale(mem, 0, 0, 0, 0);
      TelltaleRead(m, mem, 0, 0, 0, 0);
      if EbreakWord(w) {
        EbreakParts(m, a, w);
      } else if !Listed(w) {
        Unlisted(m, a, w);
      } else if Opcode(w) == 0x63 {
        Branch(m, a, w);
      } else if Opcode(w) == 0x03 {
        LoadKnown(m, a, w);
      } else if Opcode(w) == 0x23 {
        StoreKnown(m, a, w);
      } else {
        Fence(m, a, w);
      }
    }
  }

  /** The core and the simulator give a word outside the system and atomic opcodes the same meaning in
      every state exactly when it is not divergent. */
  lemma LongMeaning(m: I.Machine, w: bv32)
    requires IsCore(m) && Modelled(w)
    ensures (forall a: I.Arch | Setting(m, a) :: CoreLong(m, a, w) == SimLong(m, a, w)) <==> !DivergentLong(w)
  {
    hide CoreLong, SimLong, DivergentLong, Modelled, Setting, IsCore;
    if DivergentLong(w) {
      var a := DivergentLongDiffers(m, w, _ => 0);
    } else {
      forall a: I.Arch | Setting(m, a) ensures CoreLong(m, a, w) == SimLong(m, a, w) { LongAgrees(m, a, w); }
    }
  }
}
