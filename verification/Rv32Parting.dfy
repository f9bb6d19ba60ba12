/** What each reading does on the encodings on which the two part: the core on the left hand, as a NOP,
    a 32-bit operation or a trap, and the simulator on the right. */
module Rv32Parting {
  import opened Words
  import opened Rv32
  import opened Rv32Agree
  import opened Rv32Long
  import I = Isa
  import M = Mdu

  // ---------------------------------------------------------------------------
  // Half-words
  // ---------------------------------------------------------------------------

  lemma RejectedParts(m: I.Machine, a: I.Arch, i: bv32)
    requires Rejected(i)
    ensures CoreShort(m, a, i) == Skip(a, true) && SimShort(m, a, i) == Unknown
  {
    hide Decode, CoreExecute, Skip;
    NopWord(m, a);
  }

  lemma CopyParts(m: I.Machine, a: I.Arch, i: bv32)
    requires i & 3 == 0 && Cfunc3(i) == 0 && Q0Nzuimm(i) == 0
    ensures CoreShort(m, a, i) == Skip(a, true)
    ensures SimShort(m, a, i) == SimAlu(a, true, Popular(CrdRs2p(i)), Read(a, 2))
  {
    hide Decode, CoreExecute, Skip, Nat32, ImmCAddi4spn, CrdRs2p, Read, Q0Nzuimm, SimAlu, IType;
    NopWord(m, a);
    ImmAddi4spn(i);
    ZeroImmediate();
    assert Sign12To20(0) == 0;
  }

  /** The gate the simulator uses on the reserved forms. */
  function PairGate(func21: bv32): Gate { if func21 == 1 then XorGate else if func21 == 2 then OrGate else AndGate }

  lemma PairParts(m: I.Machine, a: I.Arch, i: bv32)
    requires Setting(m, a) && ReservedPair(i)
    ensures var func21, rd := (i >> 5) & 3, Popular(CrdRs1p(i));
            var x, y := Read(a, rd), Read(a, Popular(CrdRs2p(i)));
            && CoreShort(m, a, i) == (if func21 == 1 then SimAlu(a, true, rd, Plus(x, y)) else Skip(a, true))
            && SimShort(m, a, i) ==
                 SimAlu(a, true, rd, Gated(PairGate(func21), x, y))
  {
    hide Setting, Decode, CoreExecute, RType, Nat5, Q1Rp, Q1Rs2p, Q0Rdp, Q0Rs1p, CrdRs1p, CrdRs2p, Read, SimQ1Alu,
         DecompressAlu, SimAlu, Skip, Popular, Gated, Plus;
    Registers(i);
    Opcode3(i);
    PairWord(i);
    SimPair(a, i);
    PairCase(m, a, i);
    NopWord(m, a);
    PairFields(0);
    WordOperation(m, a, 0, Q1Rs2p(i), Q1Rp(i), Q1Rp(i));
  }

  lemma ZeroRegisterParts(m: I.Machine, a: I.Arch, i: bv32)
    requires i & 3 == 2 && Cfunc3(i) == 4 && CrdRs1(i) == 0
    ensures CoreShort(m, a, i) == if Cfunc1(i) == 1 then Breakpoint(CoreBreak) else Skip(a, true)
    ensures SimShort(m, a, i) == Breakpoint(SimBreak)
  {
    hide CoreBreak, SimBreak, Decode, CoreExecute, IType, RType, Skip;
    CompressedEbreak(m, a);
    NopWord(m, a);
  }

  /** Every half-word of the family, in every state. */
  lemma ShortParting(m: I.Machine, a: I.Arch, i: bv32)
    requires Setting(m, a)
    ensures Rejected(i) ==> CoreShort(m, a, i) == Skip(a, true) && SimShort(m, a, i) == Unknown
    ensures i & 3 == 0 && Cfunc3(i) == 0 && Q0Nzuimm(i) == 0 ==>
              && CoreShort(m, a, i) == Skip(a, true)
              && SimShort(m, a, i) == SimAlu(a, true, Popular(CrdRs2p(i)), Read(a, 2))
    ensures ReservedPair(i) ==>
              var func21, rd := (i >> 5) & 3, Popular(CrdRs1p(i));
              var x, y := Read(a, rd), Read(a, Popular(CrdRs2p(i)));
              && CoreShort(m, a, i) == (if func21 == 1 then SimAlu(a, true, rd, Plus(x, y)) else Skip(a, true))
              && SimShort(m, a, i) ==
                   SimAlu(a, true, rd, Gated(PairGate(func21), x, y))
    ensures i & 3 == 2 && Cfunc3(i) == 4 && CrdRs1(i) == 0 ==>
              && CoreShort(m, a, i) == (if Cfunc1(i) == 1 then Breakpoint(CoreBreak) else Skip(a, true))
              && SimShort(m, a, i) == Breakpoint(SimBreak)
  {
    hide CoreShort, SimShort, Skip, SimAlu, Rejected, ReservedPair, Setting, Popular, CrdRs1p, CrdRs2p, Read, Plus,
         Gated, CoreBreak, SimBreak;
    if Rejected(i) { RejectedParts(m, a, i); }
    if i & 3 == 0 && Cfunc3(i) == 0 && Q0Nzuimm(i) == 0 { CopyParts(m, a, i); }
    if ReservedPair(i) { PairParts(m, a, i); }
    if i & 3 == 2 && Cfunc3(i) == 4 && CrdRs1(i) == 0 { ZeroRegisterParts(m, a, i); }
  }

  // ---------------------------------------------------------------------------
  // The 64-bit word operations
  // ---------------------------------------------------------------------------

  /** The words the field decoder accepts with the 64-bit opcodes. */
  predicate WordAccepted(w: bv32) {
    var f := Func3(w);
    || (Opcode(w) == 0x1b && (f == 0 || f == 1 || f == 5))
    || (Opcode(w) == 0x3b &&
        if Func7(w) & 1 != 0 then f == 0 || f == 4 || f == 5 || f == 6 || f == 7
        else f == 0 || f == 1 || f == 5)
  }

  lemma OtherOpcode(w: bv32)
    ensures Opcode(w) == 0x1b ==> Opcode(w ^ 8) == 0x13
    ensures Opcode(w) == 0x3b ==> Opcode(w ^ 8) == 0x33
    ensures Func3(w ^ 8) == Func3(w) && Func7(w ^ 8) == Func7(w)
    ensures Rd(w ^ 8) == Rd(w) && Rs1(w ^ 8) == Rs1(w) && Rs2(w ^ 8) == Rs2(w)
    ensures ImmI(w ^ 8) == ImmI(w) && Shamt(w ^ 8) == Shamt(w)
  {
  }

  lemma ImmediateWordRow(w: bv32)
    requires Opcode(w) == 0x1b
    ensures WordAccepted(w) ==>
              var r := DecodeAluImm(w ^ 8);
              r.Row? && r.op.Alu? && DecodeAluImmW(w) == r.(size := 3)
    ensures !WordAccepted(w) ==> DecodeAluImmW(w) == UnknownRow
  {
    hide Opcode, Func3, Func7, Rd, Rs1, ImmI, Shamt;
    OtherOpcode(w);
  }

  lemma RegisterWordRowOf(w: bv32)
    requires Opcode(w) == 0x3b
    ensures WordAccepted(w) ==>
              var r := DecodeAlu(w ^ 8);
              r.Row? && (r.op.Alu? || r.op.Mul?) && DecodeAluW(w) == r.(size := 3)
    ensures !WordAccepted(w) ==> DecodeAluW(w) == UnknownRow
  {
    hide Opcode, Func3, Func7, Rd, Rs1, Rs2, MulOp;
    OtherOpcode(w);
    Func3Cases(w);
  }

  /** The units do not look at the width of an arithmetic row. */
  lemma WidthIgnored(m: I.Machine, a: I.Arch, r: Row, half: bool)
    requires r.Row? && (r.op.Alu? || r.op.Mul?)
    ensures CoreExecute(m, a, r.(size := 3), half) == CoreExecute(m, a, r, half)
  {
    hide Nat5, Nat20, B, M.Rv32M;
  }

  lemma WordParts(m: I.Machine, a: I.Arch, w: bv32)
    requires !Listed(w)
    ensures CoreLong(m, a, w) == if WordAccepted(w) then CoreLong(m, a, w ^ 8) else Skip(a, false)
    ensures SimLong(m, a, w) == Next(a, [])
  {
    hide Opcode, Decode, DecodeAluImm, DecodeAlu, DecodeAluImmW, DecodeAluW, CoreExecute, Skip, SimLong;
    UnlistedRow(w);
    UnlistedSim(m, a, w);
    OtherOpcode(w);
    NopCase(m, a, false);
    if Opcode(w) == 0x1b {
      ImmediateWordRow(w);
      AluImmRowOf(w ^ 8);
      if WordAccepted(w) { WidthIgnored(m, a, DecodeAluImm(w ^ 8), false); }
    } else if Opcode(w) == 0x3b {
      RegisterWordRowOf(w);
      RegisterRowDecodes(w ^ 8);
      if WordAccepted(w) { WidthIgnored(m, a, DecodeAlu(w ^ 8), false); }
    }
  }

  // ---------------------------------------------------------------------------
  // Branches, loads, stores and fences
  // ---------------------------------------------------------------------------

  lemma BranchParts(m: I.Machine, a: I.Arch, w: bv32)
    requires Opcode(w) == 0x63 && !BranchKnown(Func3(w))
    ensures CoreLong(m, a, w) == Skip(a, false) && SimLong(m, a, w) == Unknown
  {
    hide Opcode, Func3, Decode, DecodeBranch, CoreExecute, SimLong, SimBranches, Skip, BranchKnown;
    SimOpcode(m, a, w);
    BranchRowOf(w);
    BranchCore(w);
    BranchSim(a, w);
    NopCase(m, a, false);
  }

  lemma LoadParts(m: I.Machine, a: I.Arch, w: bv32)
    requires Setting(m, a) && Opcode(w) == 0x03 && !LoadsAlike(Func3(w))
    ensures SimLong(m, a, w) == Unknown
    ensures CoreLong(m, a, w) ==
              if Func3(w) == 7 then Skip(a, false)
              else SimLoad(m, a, false, Nat5(Rd(w)), Read(a, Nat5(Rs1(w))), Nat32(ImmTypeI(w)), Func3(w) == 3,
                           if Func3(w) == 3 then 3 else 2)
  {
    hide Setting, Opcode, Rd, Rs1, ImmI, ImmTypeI, Func3, Decode, CoreExecute, ExtendImm, Read, Nat5, Nat32, B, SimLong,
         SimLoads, SimLoad, Skip;
    SimOpcode(m, a, w);
    LoadSim(m, a, w);
    LoadRowOf(w);
    ImmediateI(w);
    MaskedOffsets(w);
    Func3Cases(w);
    Func3Bits();
    SizeNumbers();
    NopCase(m, a, false);
    if Func3(w) == 3 {
      LoadCase(m, a, I.LD, 3, Rd(w), Rs1(w), ImmI(w), false);
    } else if Func3(w) == 6 {
      LoadCase(m, a, I.LDU, 2, Rd(w), Rs1(w), ImmI(w), false);
    }
  }

  lemma WideStoreRecord(rs1: bv32, rs2: bv32, imm: bv32)
    ensures var r := Row(I.Mem(I.ST), 3, 0, I.RdNone, rs1, I.RsReg, rs2, I.RsReg, imm);
            && I.WellFormed(FieldsOf(r))
            && FieldsOf(r) == I.Fields(I.Mem(I.ST), 3, I.RegSel(0, false), I.RdNone, I.RegSel(Nat5(rs1), true), I.RsReg,
                                       I.RegSel(Nat5(rs2), true), I.RsReg, Nat20(imm), false)
  {
    hide Nat20, Nat5, B;
    SizeNumbers();
    IndexLiterals();
  }

  /** A store of eight bytes checks its address and writes nothing. */
  lemma WideStoreCase(m: I.Machine, a: I.Arch, rs1: bv32, rs2: bv32, imm: bv32)
    requires Setting(m, a) && imm & 0xf_ffff == imm
    ensures var addr := Plus(Read(a, Nat5(rs1)), Nat32(ExtendImm(imm)));
            CoreExecute(m, a, Row(I.Mem(I.ST), 3, 0, I.RdNone, rs1, I.RsReg, rs2, I.RsReg, imm), false) ==
              if addr % 8 != 0 || m.faults(addr, true) then Next(a.(pc := m.trapVector), []) else Skip(a, false)
  {
    hide IsCore, CoreMachine, Alu, FieldsOf, Nat5, Nat20, Nat32, ExtendImm, I.ExtendImm, B;
    WideStoreRecord(rs1, rs2, imm);
    ExtendedNumber(imm);
  }

  lemma StoreParts(m: I.Machine, a: I.Arch, w: bv32)
    requires Setting(m, a) && Opcode(w) == 0x23 && !StoresAlike(Func3(w))
    ensures SimLong(m, a, w) == Unknown
    ensures var addr := Plus(Read(a, Nat5(Rs1(w))), Nat32(ImmTypeS(w)));
            CoreLong(m, a, w) ==
              if Func3(w) == 3 && (addr % 8 != 0 || m.faults(addr, true)) then Next(a.(pc := m.trapVector), [])
              else Skip(a, false)
  {
    hide Setting, Opcode, Rs1, Rs2, ImmS, ImmTypeS, Func3, Decode, CoreExecute, ExtendImm, Read, Plus, Nat5, Nat32, B,
         SimLong, SimStore, Skip;
    SimOpcode(m, a, w);
    StoreRowOf(w);
    ImmediateS(w);
    MaskedOffsets(w);
    Func3Cases(w);
    Func3Bits();
    NopCase(m, a, false);
    if Func3(w) == 3 { WideStoreCase(m, a, Rs1(w), Rs2(w), ImmS(w)); }
  }

  lemma FenceParts(m: I.Machine, a: I.Arch, w: bv32)
    requires Opcode(w) == 0x0f && Func3(w) & 1 != 0 && Func3(w) != 1
    ensures CoreLong(m, a, w) == Skip(a, false) && SimLong(m, a, w) == Unknown
  {
    hide Opcode, Func3, Decode, CoreExecute, SimLong, Skip;
    SimOpcode(m, a, w);
    FenceRow(w);
    FenceCase(m, a);
    assert (0 as bv32) & 1 == 0;
  }

  /** EBREAK, on both sides. */
  lemma EbreakMeans(m: I.Machine, a: I.Arch, w: bv32)
    requires EbreakWord(w)
    ensures CoreLong(m, a, w) == Breakpoint(CoreBreak) && SimLong(m, a, w) == Breakpoint(SimBreak)
  {
    hide CoreBreak, SimBreak, Decode, EbreakWord, SimLong;
    EbreakRow(w);
    EbreakSim(m, a, w);
  }

  /** The data fence, which the core hands to its atomic unit, does nothing in the simulator. */
  lemma DataFence(m: I.Machine, a: I.Arch, w: bv32)
    requires Opcode(w) == 0x0f && Func3(w) & 1 == 0
    ensures CoreLong(m, a, w) == Elsewhere
    ensures SimLong(m, a, w) == if Func3(w) == 0 then Skip(a, false) else Unknown
  {
    hide Opcode, Func3, Skip, SimLong;
    SimOpcode(m, a, w);
    assert SimFence(a, w) == if Func3(w) == 0 then Skip(a, false) else Unknown by { FenceMeans(a, w); }
  }

  lemma FenceMeans(a: I.Arch, w: bv32)
    requires Func3(w) & 1 == 0
    ensures SimFence(a, w) == if Func3(w) == 0 then Skip(a, false) else Unknown
  {
    hide Func3;
    assert (1 as bv32) & 1 == 1;
  }
}
