/** The two independent readings of an instruction word in the repository: the core's decompressor,
    field decoder and functional units (rtl/core/decode, rtl/core/fu, rtl/core/exec.sv), and the
    simulator's direct execution (sim/trace.cc). Instruction words and immediates are 32-bit vectors;
    register values, addresses and the machine state are those of the instruction set. */
module Rv32 {
  import opened Words
  import I = Isa
  import M = Mdu
  import T = Traps

  // ---------------------------------------------------------------------------
  // Vectors as numbers
  // ---------------------------------------------------------------------------

  function B(x: bv32, mask: bv32): (b: nat)
    ensures b <= 1
  {
    if x & mask == 0 then 0 else 1
  }

  function Nat5(x: bv32): I.RegIdx { B(x, 1) + 2 * B(x, 2) + 4 * B(x, 4) + 8 * B(x, 8) + 16 * B(x, 0x10) }

  function Nat8(x: bv32): (n: nat)
    ensures n < 0x100
  {
    B(x, 1) + 2 * B(x, 2) + 4 * B(x, 4) + 8 * B(x, 8)
    + 16 * B(x, 0x10) + 32 * B(x, 0x20) + 64 * B(x, 0x40) + 128 * B(x, 0x80)
  }

  function Nat20(x: bv32): I.Imm20 {
    Nat8(x)
    + 0x100 * (B(x, 0x100) + 2 * B(x, 0x200) + 4 * B(x, 0x400) + 8 * B(x, 0x800))
    + 0x1000 * (B(x, 0x1000) + 2 * B(x, 0x2000) + 4 * B(x, 0x4000) + 8 * B(x, 0x8000))
    + 0x1_0000 * (B(x, 0x1_0000) + 2 * B(x, 0x2_0000) + 4 * B(x, 0x4_0000) + 8 * B(x, 0x8_0000))
  }

  function High12(x: bv32): (n: nat)
    ensures n < 0x1000
  {
    B(x, 0x10_0000) + 2 * B(x, 0x20_0000) + 4 * B(x, 0x40_0000) + 8 * B(x, 0x80_0000)
    + 0x10 * (B(x, 0x100_0000) + 2 * B(x, 0x200_0000) + 4 * B(x, 0x400_0000) + 8 * B(x, 0x800_0000))
    + 0x100 * (B(x, 0x1000_0000) + 2 * B(x, 0x2000_0000) + 4 * B(x, 0x4000_0000) + 8 * B(x, 0x8000_0000))
  }

  function Nat32(x: bv32): Word { Nat20(x) + 0x10_0000 * High12(x) }

  // ---------------------------------------------------------------------------
  // Arithmetic both readings share: 32-bit words
  // ---------------------------------------------------------------------------

  function Minus(a: Word, b: Word): Word { ToWord(a - b) }

  datatype Gate = AndGate | OrGate | XorGate

  function GateBit(g: Gate, p: bool, q: bool): nat {
    match g
    case AndGate => if p && q then 1 else 0
    case OrGate => if p || q then 1 else 0
    case XorGate => if p != q then 1 else 0
  }

  /** A gate on each of the lowest bits. */
  function Bitwise(g: Gate, a: nat, b: nat, width: nat): (r: nat)
    ensures r < Pow2(width)
  {
    if width == 0 then 0 else GateBit(g, a % 2 == 1, b % 2 == 1) + 2 * Bitwise(g, a / 2, b / 2, width - 1)
  }

  function Gated(g: Gate, a: Word, b: Word): Word {
    Pow2Of32();
    Bitwise(g, a, b, 32)
  }

  // Shifts use the low five bits of the amount (rtl/core/fu/alu.sv:34-36)
  function ShiftLeft(a: Word, n: Word): Word { ToWord(a * Pow2(n % 32)) }

  function ShiftRight(a: Word, n: Word): Word {
    QuotientWord(a, Pow2(n % 32));
    a / Pow2(n % 32)
  }

  function ShiftArith(a: Word, n: Word): Word { ToWord(Signed(a) / Pow2(n % 32)) }

  lemma QuotientWord(a: Word, d: nat)
    requires d > 0
    ensures 0 <= a / d <= a
  {
    assert a == (a / d) * d + a % d;
    MultipleGrows(a / d, d);
    if a / d >= 1 { QuotientTimes(a / d, d); }
  }

  lemma QuotientTimes(q: int, d: nat)
    requires q >= 1 && d > 0
    ensures q * d >= q
  {
    MultipleGrows(d, q);
  }

  /** rtl/core/fu/alu.sv:22-41 */
  function Alu(op: I.AluOp, a: Word, b: Word): Word {
    match op
    case LUI => Plus(a, UpperWord(b))
    case ADD => Plus(a, b)
    case SUB => Minus(a, b)
    case AND => Gated(AndGate, a, b)
    case OR => Gated(OrGate, a, b)
    case XOR => Gated(XorGate, a, b)
    case SLL => ShiftLeft(a, b)
    case SRL => ShiftRight(a, b)
    case SRA => ShiftArith(a, b)
    case SLT => if Signed(a) < Signed(b) then 1 else 0
    case SLTU => if a < b then 1 else 0
    case ALU_NONE => 0
    case FENCE => 0
  }

  function UpperWord(b: Word): Word { (b % 0x10_0000) * 0x1000 }

  // ---------------------------------------------------------------------------
  // The core: decompressor (rtl/core/decode/decompress.sv:18-304)
  // ---------------------------------------------------------------------------

  datatype Expanded = Expanded(instr: bv32, unknown: bool)

  const NOP_WORD: Expanded := Expanded(0, false)
  const BAD_WORD: Expanded := Expanded(0, true)

  function Q0Rdp(i: bv32): bv32 { 8 | ((i >> 2) & 7) }
  function Q0Rs1p(i: bv32): bv32 { 8 | ((i >> 7) & 7) }
  function Q0Nzuimm(i: bv32): bv32 {
    (((i >> 7) & 15) << 6) | (((i >> 11) & 3) << 4) | (((i >> 5) & 1) << 3) | (((i >> 6) & 1) << 2)
  }
  function Q0Uimm6(i: bv32): bv32 { (((i >> 5) & 1) << 6) | (((i >> 10) & 7) << 3) | (((i >> 6) & 1) << 2) }
  function Q1R(i: bv32): bv32 { (i >> 7) & 31 }
  function Q1Rp(i: bv32): bv32 { 8 | ((i >> 7) & 7) }
  function Q1Rs2p(i: bv32): bv32 { 8 | ((i >> 2) & 7) }
  function Q1Imm5(i: bv32): bv32 { (((i >> 12) & 1) << 5) | ((i >> 2) & 31) }
  function Q1Nzimm9(i: bv32): bv32 {
    (((i >> 12) & 1) << 9) | (((i >> 3) & 3) << 7) | (((i >> 5) & 1) << 6) |
    (((i >> 2) & 1) << 5) | (((i >> 6) & 1) << 4)
  }
  function Q1Imm8(i: bv32): bv32 {
    (((i >> 12) & 1) << 8) | (((i >> 5) & 3) << 6) | (((i >> 2) & 1) << 5) |
    (((i >> 10) & 3) << 3) | (((i >> 3) & 3) << 1)
  }
  function Q1Imm11(i: bv32): bv32 {
    (((i >> 12) & 1) << 11) | (((i >> 8) & 1) << 10) | (((i >> 9) & 3) << 8) | (((i >> 6) & 1) << 7) |
    (((i >> 7) & 1) << 6) | (((i >> 2) & 1) << 5) | (((i >> 11) & 1) << 4) | (((i >> 3) & 7) << 1)
  }
  function Q2Rs2(i: bv32): bv32 { (i >> 2) & 31 }
  function Q2Uimm7(i: bv32): bv32 { (((i >> 2) & 3) << 6) | (((i >> 12) & 1) << 5) | (((i >> 4) & 7) << 2) }
  function Q2Uimm27(i: bv32): bv32 { (((i >> 7) & 3) << 6) | (((i >> 9) & 15) << 2) }

  function Sign6(v: bv32): bv32 { if v & 0x20 != 0 then v | 0xfc0 else v }   // {6{v[5]}}, v
  function Sign6To20(v: bv32): bv32 { if v & 0x20 != 0 then v | 0xfffc0 else v } // {14{v[5]}}, v
  function Sign10(v: bv32): bv32 { if v & 0x200 != 0 then v | 0xc00 else v } // {2{v[9]}}, v

  // Instruction formats, as the concatenations of the source
  function IType(imm: bv32, rs1: bv32, f3: bv32, rd: bv32, opc: bv32): bv32 {
    (imm << 20) | (rs1 << 15) | (f3 << 12) | (rd << 7) | opc
  }
  function SType(imm: bv32, rs2: bv32, rs1: bv32, f3: bv32, opc: bv32): bv32 {
    ((imm >> 5) << 25) | (rs2 << 20) | (rs1 << 15) | (f3 << 12) | ((imm & 31) << 7) | opc
  }
  function RType(f7: bv32, rs2: bv32, rs1: bv32, f3: bv32, rd: bv32): bv32 {
    (f7 << 25) | (rs2 << 20) | (rs1 << 15) | (f3 << 12) | (rd << 7) | 0x33
  }
  function UType(imm: bv32, rd: bv32): bv32 { (imm << 12) | (rd << 7) | 0x37 }
  function CompressedJump(imm: bv32, rd: bv32): bv32 {
    var s := (imm >> 11) & 1;
    (s << 31) | (((imm >> 1) & 0x3ff) << 21) | (s << 20) | ((if s == 1 then 0xff else 0) << 12) | (rd << 7) | 0x6f
  }
  function CompressedBranch(imm: bv32, rs1: bv32, f3: bv32): bv32 {
    var s := (imm >> 8) & 1;
    (s << 31) | (s << 30) | (s << 29) | (((imm >> 5) & 15) << 25) | (rs1 << 15) | (f3 << 12) |
    (((imm >> 1) & 15) << 8) | (s << 7) | 0x63
  }

  function DecompressQ0(i: bv32): Expanded {
    var opcode := (i >> 13) & 7;
    if opcode == 0 then
      if Q0Nzuimm(i) != 0 then Expanded(IType(Q0Nzuimm(i), 2, 0, Q0Rdp(i), 0x13), false) else BAD_WORD
    else if opcode == 2 then
      Expanded(IType(Q0Uimm6(i), Q0Rs1p(i), 2, Q0Rdp(i), 0x03), false)
    else if opcode == 6 then
      Expanded(SType(Q0Uimm6(i), Q0Rdp(i), Q0Rs1p(i), 2, 0x23), false)
    else BAD_WORD
  }

  function DecompressAlu(i: bv32): Expanded {
    var rp, rs2p := Q1Rp(i), Q1Rs2p(i);
    var opcode2 := (i >> 10) & 3;
    var opcode3 := (((i >> 12) & 1) << 2) | ((i >> 5) & 3);
    if opcode2 == 0 then Expanded(IType(Q1Imm5(i), rp, 5, rp, 0x13), false)
    else if opcode2 == 1 then Expanded(IType(0x400 | Q1Imm5(i), rp, 5, rp, 0x13), false)
    else if opcode2 == 2 then Expanded(IType(Sign6(Q1Imm5(i)), rp, 7, rp, 0x13), false)
    else if opcode3 == 0 then Expanded(RType(0x20, rs2p, rp, 0, rp), false)
    else if opcode3 == 1 then Expanded(RType(0, rs2p, rp, 4, rp), false)
    else if opcode3 == 2 then Expanded(RType(0, rs2p, rp, 6, rp), false)
    else if opcode3 == 3 then Expanded(RType(0, rs2p, rp, 7, rp), false)
    else if opcode3 == 4 then Expanded(RType(0x20, rs2p, rp, 0, rp) | 0x08, false)
    else if opcode3 == 5 then Expanded(RType(0, rs2p, rp, 0, rp) | 0x08, false)
    else BAD_WORD
  }

  function DecompressQ1(i: bv32): Expanded {
    var opcode, r := (i >> 13) & 7, Q1R(i);
    if opcode == 0 then Expanded(IType(Sign6(Q1Imm5(i)), r, 0, r, 0x13), false)
    else if opcode == 1 then Expanded(CompressedJump(Q1Imm11(i), 1), false)
    else if opcode == 2 then Expanded(IType(Sign6(Q1Imm5(i)), 0, 0, r, 0x13), false)
    else if opcode == 3 then
      if r == 2 then Expanded(IType(Sign10(Q1Nzimm9(i)), 2, 0, 2, 0x13), false)
      else Expanded(UType(Sign6To20(Q1Imm5(i)), r), false)
    else if opcode == 4 then DecompressAlu(i)
    else if opcode == 5 then Expanded(CompressedJump(Q1Imm11(i), 0), false)
    else if opcode == 6 then Expanded(CompressedBranch(Q1Imm8(i), Q1Rp(i), 0), false)
    else Expanded(CompressedBranch(Q1Imm8(i), Q1Rp(i), 1), false)
  }

  function DecompressQ2(i: bv32): Expanded {
    var opcode, r, rs2 := (i >> 13) & 7, Q1R(i), Q2Rs2(i);
    var opcode2 := (i >> 12) & 1;
    if opcode == 0 then Expanded(IType(Q1Imm5(i), r, 1, r, 0x13), false)
    else if opcode == 2 then Expanded(IType(Q2Uimm7(i), 2, 2, r, 0x03), false)
    else if opcode == 4 then
      if r != 0 && rs2 != 0 then Expanded(RType(0, rs2, if opcode2 == 1 then r else 0, 0, r), false)
      else if r != 0 then Expanded(IType(0, r, 0, if opcode2 == 1 then 1 else 0, 0x67), false)
      else if opcode2 == 1 then Expanded(IType(1, 0, 0, 0, 0x73), false)
      else NOP_WORD
    else if opcode == 6 then Expanded(SType(Q2Uimm27(i), rs2, 2, 2, 0x23), false)
    else BAD_WORD
  }

  function Decompress(i: bv32): Expanded {
    var quadrant := i & 3;
    if quadrant == 0 then DecompressQ0(i)
    else if quadrant == 1 then DecompressQ1(i)
    else if quadrant == 2 then DecompressQ2(i)
    else BAD_WORD
  }

  // ---------------------------------------------------------------------------
  // The core: field decoder (rtl/core/decode/decode.sv:18-298, 493-506)
  // ---------------------------------------------------------------------------

  /** A decoded row; imm is 20 bits wide. */
  datatype Row =
    | Row(op: I.Op, size: bv32, rd: bv32, rdSel: I.RdSel, rs1: bv32, rs1Sel: I.RsSel, rs2: bv32, rs2Sel: I.RsSel,
        imm: bv32)
    | Ebreak
    | OtherUnit       // AMO, CSR, fences and returns: not modelled
    | UnknownRow

  function Opcode(w: bv32): bv32 { w & 0x7f }
  function Func3(w: bv32): bv32 { (w >> 12) & 7 }
  function Func7(w: bv32): bv32 { (w >> 25) & 0x7f }
  function Rs1(w: bv32): bv32 { (w >> 15) & 31 }
  function Rs2(w: bv32): bv32 { (w >> 20) & 31 }
  function Rd(w: bv32): bv32 { (w >> 7) & 31 }

  function Sign12To20(v: bv32): bv32 { if v & 0x800 != 0 then v | 0xf_f000 else v }
  function ImmU(w: bv32): bv32 { (w >> 12) & 0xf_ffff }
  function ImmI(w: bv32): bv32 { Sign12To20((w >> 20) & 0xfff) }
  function ImmS(w: bv32): bv32 { Sign12To20((((w >> 25) & 0x7f) << 5) | ((w >> 7) & 31)) }
  function ImmB(w: bv32): bv32 {
    Sign12To20((((w >> 31) & 1) << 11) | (((w >> 7) & 1) << 10) | (((w >> 25) & 0x3f) << 4) | ((w >> 8) & 15))
  }
  function ImmJ(w: bv32): bv32 {
    (((w >> 31) & 1) << 19) | (((w >> 12) & 0xff) << 11) | (((w >> 20) & 1) << 10) | ((w >> 21) & 0x3ff)
  }
  function Shamt(w: bv32): bv32 { (w >> 20) & 31 }

  function AluRow(op: I.AluOp, w: bv32, imm: bv32): (r: Row)
    ensures r.Row?
  {
    Row(I.Alu(op), 0, Rd(w), I.RdReg, Rs1(w), I.RsReg, 0, I.RsImm, imm)
  }

  function RegRow(op: I.Op, w: bv32): (r: Row)
    ensures r.Row?
  {
    Row(op, 0, Rd(w), I.RdReg, Rs1(w), I.RsReg, Rs2(w), I.RsReg, 0)
  }

  function BranchRow(op: I.BruOp, invert: bool, w: bv32): Row {
    Row(I.Bru(op), if invert then 3 else 0, 0, I.RdPc, Rs1(w), I.RsReg, Rs2(w), I.RsReg, ImmB(w))
  }

  function DecodeBranch(w: bv32): Row {
    var f := Func3(w);
    if f == 0 then BranchRow(I.BEQ, false, w)
    else if f == 1 then BranchRow(I.BEQ, true, w)
    else if f == 4 then BranchRow(I.BLT, false, w)
    else if f == 5 then BranchRow(I.BLT, true, w)
    else if f == 6 then BranchRow(I.BLTU, false, w)
    else if f == 7 then BranchRow(I.BLTU, true, w)
    else UnknownRow
  }

  function DecodeAluImm(w: bv32): Row {
    var f := Func3(w);
    if f == 1 then AluRow(I.SLL, w, Shamt(w))
    else if f == 5 then AluRow(if Func7(w) & 0x20 != 0 then I.SRA else I.SRL, w, Shamt(w))
    else if f == 0 then AluRow(I.ADD, w, ImmI(w))
    else if f == 2 then AluRow(I.SLT, w, ImmI(w))
    else if f == 3 then AluRow(I.SLTU, w, ImmI(w))
    else if f == 4 then AluRow(I.XOR, w, ImmI(w))
    else if f == 6 then AluRow(I.OR, w, ImmI(w))
    else AluRow(I.AND, w, ImmI(w))
  }

  function MulOp(f: bv32): M.MduOp {
    if f == 0 then M.MUL else if f == 1 then M.MULH else if f == 2 then M.MULHSU else if f == 3 then M.MULHU
    else if f == 4 then M.DIV else if f == 5 then M.DIVU else if f == 6 then M.REM else M.REMU
  }

  function DecodeAlu(w: bv32): (r: Row)
    ensures r.Row?
  {
    var f, alt := Func3(w), Func7(w) & 0x20 != 0;
    if Func7(w) & 1 != 0 then RegRow(I.Mul(MulOp(f)), w)
    else RegRow(I.Alu(
      if f == 0 then (if alt then I.SUB else I.ADD) else if f == 1 then I.SLL else if f == 2 then I.SLT
      else if f == 3 then I.SLTU else if f == 4 then I.XOR else if f == 5 then (if alt then I.SRA else I.SRL)
      else if f == 6 then I.OR else I.AND), w)
  }

  /** The 64-bit word rows the decoder keeps; the units ignore their width bit. */
  function DecodeAluImmW(w: bv32): Row {
    var f := Func3(w);
    if f == 0 then AluRow(I.ADD, w, ImmI(w)).(size := 3)
    else if f == 1 then AluRow(I.SLL, w, Shamt(w)).(size := 3)
    else if f == 5 then AluRow(if Func7(w) & 0x20 != 0 then I.SRA else I.SRL, w, Shamt(w)).(size := 3)
    else UnknownRow
  }

  function DecodeAluW(w: bv32): Row {
    var f := Func3(w);
    if Func7(w) & 1 != 0 then
      if f == 1 || f == 2 || f == 3 then UnknownRow else RegRow(I.Mul(MulOp(f)), w).(size := 3)
    else if f == 0 || f == 1 || f == 5 then DecodeAlu(w).(size := 3)
    else UnknownRow
  }

  function Decode(w: bv32): Row {
    var opc := Opcode(w);
    if opc == 0x37 then Row(I.Alu(I.LUI), 0, Rd(w), I.RdReg, 0, I.RsReg, 0, I.RsImm, ImmU(w))
    else if opc == 0x17 then Row(I.Alu(I.LUI), 0, Rd(w), I.RdReg, 0, I.RsPc, 0, I.RsImm, ImmU(w))
    else if opc == 0x6f then Row(I.Bru(I.JAL), 0, Rd(w), I.RdRegAndPc, 0, I.RsPc, 0, I.RsImm, ImmJ(w))
    else if opc == 0x67 then Row(I.Bru(I.JALR), 0, Rd(w), I.RdRegAndPc, Rs1(w), I.RsReg, 0, I.RsImm, ImmI(w))
    else if opc == 0x63 then DecodeBranch(w)
    else if opc == 0x03 then
      if Func3(w) == 7 then UnknownRow
      else Row(I.Mem(if Func3(w) & 4 != 0 then I.LDU else I.LD), Func3(w) & 3, Rd(w), I.RdReg, Rs1(w), I.RsReg, 0,
          I.RsImm, ImmI(w))
    else if opc == 0x23 then
      if Func3(w) & 4 != 0 then UnknownRow
      else Row(I.Mem(I.ST), Func3(w) & 3, 0, I.RdNone, Rs1(w), I.RsReg, Rs2(w), I.RsReg, ImmS(w))
    else if opc == 0x13 then DecodeAluImm(w)
    else if opc == 0x33 then DecodeAlu(w)
    else if opc == 0x1b then DecodeAluImmW(w)
    else if opc == 0x3b then DecodeAluW(w)
    else if opc == 0x0f && Func3(w) & 1 != 0 then Row(I.Alu(I.FENCE), 0, 0, I.RdNone, 0, I.RsNone, 0, I.RsNone, 0)
    else if opc == 0x73 && Func3(w) == 0 && Func7(w) != 0x09 && (w >> 20) & 0xfff == 1 then Ebreak
    else if opc == 0x73 || opc == 0x2f || opc == 0x0f then OtherUnit
    else UnknownRow
  }

  // ---------------------------------------------------------------------------
  // The core: one instruction through decoder, units and writeback
  // ---------------------------------------------------------------------------

  /** The state after the instruction and what it wrote on the way, a breakpoint as the trap entry it
      makes, a stop at an encoding the simulator does not know, or an instruction of a unit outside
      this model. */
  datatype Outcome =
    | Next(a: I.Arch, stores: seq<I.StoreEvent>)
    | Breakpoint(enter: T.State -> T.State)
    | Unknown
    | Elsewhere

  /** The core takes every breakpoint at machine level (rtl/core/csr.sv:298-307, with the status word
      of lines 33-47 and the handler address of lines 57-65). */
  function CoreBreak(s: T.State): T.State {
    s.(pc := CoreBase(s.m.tvec, 0), priv := 3,
       m := s.m.(epc := s.pc, cause := 3, tval := s.pc, pp := s.priv % 4, pie := s.m.ie, ie := false))
  }

  /** Any other exception it delegates, but only to the supervisor (rtl/core/csr.sv:235-262). */
  function CoreExcept(s: T.State, code: nat, tval: Word): T.State
    requires code < 32
  {
    if code in s.medeleg && (s.priv == 1 || s.priv == 0) then
      s.(pc := CoreBase(s.s.tvec, 0), priv := 1,
         s := s.s.(epc := s.pc, cause := code, tval := tval, pp := s.priv % 2, pie := s.s.ie, ie := false))
    else
      s.(pc := CoreBase(s.m.tvec, 0), priv := 3,
         m := s.m.(epc := s.pc, cause := code, tval := tval, pp := s.priv % 4, pie := s.m.ie, ie := false))
  }

  function CoreBase(tvec: Word, code: nat): Word
    requires code < 16
  {
    if tvec % 4 == 0 then tvec else Plus(tvec - tvec % 4, 4 * code)
  }

  /** The simulator takes it like any other exception, delegated or not (sim/trace.cc:1219-1226). */
  function SimBreak(s: T.State): T.State { T.ExceptEnter(s, 3, s.pc) }

  function ExtendImm(imm: bv32): bv32 { if imm & 0x8_0000 != 0 then imm | 0xfff0_0000 else imm }

  function FieldsOf(r: Row): I.Fields
    requires r.Row?
  {
    I.Fields(r.op, B(r.size, 1) + 2 * B(r.size, 2),
             I.RegSel(Nat5(r.rd), r.rdSel == I.RdReg || r.rdSel == I.RdRegAndPc), r.rdSel,
             I.RegSel(Nat5(r.rs1), r.rs1Sel == I.RsReg), r.rs1Sel, I.RegSel(Nat5(r.rs2), r.rs2Sel == I.RsReg), r.rs2Sel,
             Nat20(r.imm), false)
  }

  /** A decompressed half-word as the number the aligner hands on. */
  function ExpandHalf(h: Half): Word { Decompress(h as bv32).instr as int }

  /** What the decode stage hands on: an unknown row becomes a NOP (rtl/core/decode.sv:42-51). */
  function DecodeRow(r: Row): I.Decode {
    if r.Row? && I.WellFormed(FieldsOf(r)) then FieldsOf(r) else I.NOP_DECODE
  }

  function DecodeWord(w: Word): I.Decode { DecodeRow(Decode(w as bv32)) }

  /** The core with its own decompressor, field decoder and arithmetic unit. */
  function CoreMachine(program: Word -> Half, faults: (Word, bool) -> bool, trapVector: I.Pc): I.Machine {
    I.Machine(program, ExpandHalf, DecodeWord, Alu, faults, trapVector)
  }

  ghost predicate IsCore(m: I.Machine) { m == CoreMachine(m.program, m.faults, m.trapVector) }

  function Performed(m: I.Machine, a: I.Arch, d: I.Decode): Outcome { Next(I.Perform(m, a, d), I.StoreBy(m, a, d)) }

  /** A row through the units; an unknown one retires as a NOP. */
  function CoreExecute(m: I.Machine, a: I.Arch, r: Row, half: bool): Outcome {
    match r
    case Row(_, _, _, _, _, _, _, _, _) => Performed(m, a, DecodeRow(r).(half := half))
    case UnknownRow => Performed(m, a, DecodeRow(r).(half := half))
    case Ebreak => Breakpoint(CoreBreak)
    case OtherUnit => Elsewhere
  }

  /** A half-word through decompressor, decoder and units. */
  function CoreShort(m: I.Machine, a: I.Arch, i: bv32): Outcome { CoreExpanded(m, a, Decompress(i)) }

  /** The aligner hands on the expanded word and leaves the decompressor's second output unconnected
      (rtl/core/align.sv:83-89): an unknown half-word is the word 0, which the decoder does not know. */
  function CoreExpanded(m: I.Machine, a: I.Arch, e: Expanded): Outcome { CoreExecute(m, a, Decode(e.instr), true) }

  /** A full word through decoder and units. */
  function CoreLong(m: I.Machine, a: I.Arch, w: bv32): Outcome { CoreExecute(m, a, Decode(w), false) }

  // ---------------------------------------------------------------------------
  // The simulator (sim/trace.cc)
  // ---------------------------------------------------------------------------

  function SignBit6(v: bv32): bv32 { if v & 0x20 != 0 then v | 0xffff_ffe0 else v }
  function SignBit9(v: bv32): bv32 { if v & 0x100 != 0 then v | 0xffff_ff00 else v }
  function SignBit10(v: bv32): bv32 { if v & 0x200 != 0 then v | 0xffff_fe00 else v }
  function SignBit12(v: bv32): bv32 { if v & 0x800 != 0 then v | 0xffff_f800 else v }
  function SignBit13(v: bv32): bv32 { if v & 0x1000 != 0 then v | 0xffff_f000 else v }
  function SignBit18(v: bv32): bv32 { if v & 0x2_0000 != 0 then v | 0xfffe_0000 else v }
  function SignBit21(v: bv32): bv32 { if v & 0x10_0000 != 0 then v | 0xfff0_0000 else v }

  function ImmCSlli(e: bv32): bv32 { (((e >> 12) & 1) << 5) | ((e >> 2) & 31) }
  function ImmCLwsp(e: bv32): bv32 { (((((((e >> 2) & 3) << 1) | ((e >> 12) & 1)) << 3) | ((e >> 4) & 7))) << 2 }
  function ImmCSwsp(e: bv32): bv32 { ((((e >> 7) & 3) << 4) | ((e >> 9) & 15)) << 2 }
  function ImmCAddi4spn(e: bv32): bv32 {
    ((((((((e >> 7) & 15) << 2) | ((e >> 11) & 3)) << 1) | ((e >> 5) & 1)) << 1) | ((e >> 6) & 1)) << 2
  }
  function ImmCLwsw(e: bv32): bv32 { ((((((e >> 5) & 1) << 3) | ((e >> 10) & 7)) << 1) | ((e >> 6) & 1)) << 2 }
  function ImmCAddi(e: bv32): bv32 { SignBit6(ImmCSlli(e)) }
  function ImmCJ(e: bv32): bv32 {
    SignBit12(((((((((((((((((e >> 12) & 1) << 1) | ((e >> 8) & 1)) << 2) | ((e >> 9) & 3)) << 1)
      | ((e >> 6) & 1)) << 1)
      | ((e >> 7) & 1)) << 1) | ((e >> 2) & 1)) << 1) | ((e >> 11) & 1)) << 3) | ((e >> 3) & 7)) << 1)
  }
  function ImmCAddi16sp(e: bv32): bv32 {
    SignBit10(((((((((((e >> 12) & 1) << 2) | ((e >> 3) & 3)) << 1) | ((e >> 5) & 1)) << 1) | ((e >> 2) & 1)) << 1)
      | ((e >> 6) & 1)) << 4)
  }
  function ImmCLui(e: bv32): bv32 { SignBit18(ImmCSlli(e) << 12) }
  function ImmCB(e: bv32): bv32 {
    SignBit9(((((((((((e >> 12) & 1) << 2) | ((e >> 5) & 3)) << 1) | ((e >> 2) & 1)) << 2) | ((e >> 10) & 3)) << 2)
      | ((e >> 3) & 3)) << 1)
  }

  function ImmTypeI(e: bv32): bv32 { SignBit12((e >> 20) & 0xfff) }
  function ImmTypeS(e: bv32): bv32 { SignBit12((((e >> 25) & 0x7f) << 5) | ((e >> 7) & 31)) }
  function ImmTypeB(e: bv32): bv32 {
    SignBit13(((((((((e >> 31) & 1) << 1) | ((e >> 7) & 1)) << 6) | ((e >> 25) & 0x3f)) << 4) | ((e >> 8) & 15)) << 1)
  }
  function ImmTypeU(e: bv32): bv32 { ((e >> 12) & 0xf_ffff) << 12 }
  function ImmTypeJ(e: bv32): bv32 {
    SignBit21(((((((((e >> 31) & 1) << 8) | ((e >> 12) & 0xff)) << 1) | ((e >> 20) & 1)) << 10)
      | ((e >> 21) & 0x3ff)) << 1)
  }

  // Branch and jump offsets are even, so that every pc is
  lemma OffsetsEven(e: bv32)
    ensures Nat32(ImmCJ(e)) % 2 == 0 && Nat32(ImmCB(e)) % 2 == 0 && Nat32(ImmTypeB(e)) % 2 == 0
              && Nat32(ImmTypeJ(e)) % 2 == 0
  {
    LastBit(ImmCJ(e));
    LastBit(ImmCB(e));
    LastBit(ImmTypeB(e));
    LastBit(ImmTypeJ(e));
    EvenVectors(e);
    hide ImmCJ, ImmCB, ImmTypeB, ImmTypeJ, Nat32, B;
  }

  lemma EvenVectors(e: bv32)
    ensures B(ImmCJ(e), 1) == 0 && B(ImmCB(e), 1) == 0 && B(ImmTypeB(e), 1) == 0 && B(ImmTypeJ(e), 1) == 0
  {
  }

  lemma LastBit(x: bv32)
    ensures Nat32(x) % 2 == B(x, 1)
  {
    hide B;
  }

  function OffsetCJ(e: bv32): I.Pc { OffsetsEven(e); Nat32(ImmCJ(e)) }
  function OffsetCB(e: bv32): I.Pc { OffsetsEven(e); Nat32(ImmCB(e)) }
  function OffsetTypeB(e: bv32): I.Pc { OffsetsEven(e); Nat32(ImmTypeB(e)) }
  function OffsetTypeJ(e: bv32): I.Pc { OffsetsEven(e); Nat32(ImmTypeJ(e)) }

  // Registers
  function Read(a: I.Arch, idx: I.RegIdx): Word { if idx == 0 then 0 else a.regs[idx] }
  function Write(regs: I.Regs, idx: I.RegIdx, v: Word): I.Regs { if idx == 0 then regs else regs[idx := v] }

  // The EXECUTE_* macros; `half` is an instr_len of two
  function SimAlu(a: I.Arch, half: bool, dst: I.RegIdx, value: Word): Outcome {
    Next(a.(pc := I.NextPc(a.pc, half), regs := Write(a.regs, dst, value)), [])
  }

  function SimJal(a: I.Arch, half: bool, dst: I.RegIdx, base: Word, offset: Word): Outcome {
    Next(a.(pc := I.Even(Plus(base, offset)), regs := Write(a.regs, dst, I.NextPc(a.pc, half))), [])
  }

  function SimBranch(a: I.Arch, half: bool, taken: bool, offset: I.Pc): Outcome {
    Next(a.(pc := if taken then EvenSum(a.pc, offset) else I.NextPc(a.pc, half)), [])
  }

  function EvenSum(p: I.Pc, q: I.Pc): I.Pc { Plus(p, q) }

  /** Misaligned and faulting accesses enter the trap handler. */
  function SimLoad(m: I.Machine, a: I.Arch, half: bool, dst: I.RegIdx, base: Word, offset: Word, sign: bool,
                   size: nat): Outcome {
    var addr := Plus(base, offset);
    if I.Misaligned(size, addr) || m.faults(addr, false) then Next(a.(pc := m.trapVector), [])
    else Next(a.(pc := I.NextPc(a.pc, half),
        regs := Write(a.regs, dst, I.Load(a.mem, if sign then I.LD else I.LDU, size, addr))), [])
  }

  function SimStore(m: I.Machine, a: I.Arch, half: bool, value: Word, base: Word, offset: Word, size: nat): Outcome {
    var addr := Plus(base, offset);
    if I.Misaligned(size, addr) || m.faults(addr, true) then Next(a.(pc := m.trapVector), [])
    else Next(a.(pc := I.NextPc(a.pc, half), mem := I.Store(a.mem, size, addr, value)),
              [I.StoreEvent(addr, size, I.StoreData(size, value))])
  }

  function CrdRs1(e: bv32): bv32 { (e >> 7) & 31 }
  function Crs2(e: bv32): bv32 { (e >> 2) & 31 }
  function CrdRs1p(e: bv32): bv32 { (e >> 7) & 7 }
  function CrdRs2p(e: bv32): bv32 { (e >> 2) & 7 }
  function Cfunc3(e: bv32): bv32 { (e >> 13) & 7 }
  function Cfunc1(e: bv32): bv32 { (e >> 12) & 1 }

  /** The eight popular registers x8 to x15. */
  function Popular(r: bv32): I.RegIdx { 8 + B(r, 1) + 2 * B(r, 2) + 4 * B(r, 4) }

  function SimQ0(m: I.Machine, a: I.Arch, e: bv32): Outcome {
    var rd, rs := Popular(CrdRs2p(e)), Popular(CrdRs1p(e));
    if Cfunc3(e) == 0 then SimAlu(a, true, rd, Plus(Read(a, 2), Nat32(ImmCAddi4spn(e))))
    else if Cfunc3(e) == 2 then SimLoad(m, a, true, rd, Read(a, rs), Nat32(ImmCLwsw(e)), true, 2)
    else if Cfunc3(e) == 6 then SimStore(m, a, true, Read(a, rd), Read(a, rs), Nat32(ImmCLwsw(e)), 2)
    else Unknown
  }

  function SimQ1Alu(a: I.Arch, e: bv32): Outcome {
    var rd := Popular(CrdRs1p(e));
    var x, y := Read(a, rd), Read(a, Popular(CrdRs2p(e)));
    var func22, func21 := (e >> 10) & 3, (e >> 5) & 3;
    SimAlu(a, true, rd,
      if func22 == 0 then ShiftRight(x, Nat32(ImmCSlli(e)))
      else if func22 == 1 then ShiftArith(x, Nat32(ImmCSlli(e)))
      else if func22 == 2 then Gated(AndGate, x, Nat32(ImmCAddi(e)))
      else if func21 == 0 then Minus(x, y)
      else if func21 == 1 then Gated(XorGate, x, y)
      else if func21 == 2 then Gated(OrGate, x, y)
      else Gated(AndGate, x, y))
  }

  function SimQ1(a: I.Arch, e: bv32): Outcome {
    var f, rd := Cfunc3(e), Nat5(CrdRs1(e));
    if f == 0 then SimAlu(a, true, rd, Plus(Read(a, rd), Nat32(ImmCAddi(e))))
    else if f == 1 then SimJal(a, true, 1, a.pc, OffsetCJ(e))
    else if f == 2 then SimAlu(a, true, rd, Plus(0, Nat32(ImmCAddi(e))))
    else if f == 3 then
      if CrdRs1(e) == 2 then SimAlu(a, true, 2, Plus(Read(a, 2), Nat32(ImmCAddi16sp(e))))
      else SimAlu(a, true, rd, Plus(0, Nat32(ImmCLui(e))))
    else if f == 4 then SimQ1Alu(a, e)
    else if f == 5 then SimJal(a, true, 0, a.pc, OffsetCJ(e))
    else if f == 6 then SimBranch(a, true, Read(a, Popular(CrdRs1p(e))) == 0, OffsetCB(e))
    else SimBranch(a, true, Read(a, Popular(CrdRs1p(e))) != 0, OffsetCB(e))
  }

  function SimQ2(m: I.Machine, a: I.Arch, e: bv32): Outcome {
    var f, rd, rs2 := Cfunc3(e), Nat5(CrdRs1(e)), Nat5(Crs2(e));
    if f == 0 then SimAlu(a, true, rd, ShiftLeft(Read(a, rd), Nat32(ImmCSlli(e))))
    else if f == 2 then SimLoad(m, a, true, rd, Read(a, 2), Nat32(ImmCLwsp(e)), true, 2)
    else if f == 4 then
      if CrdRs1(e) != 0 && Crs2(e) != 0
          then SimAlu(a, true, rd, Plus(if Cfunc1(e) == 1 then Read(a, rd) else 0, Read(a, rs2)))
      else if CrdRs1(e) != 0 then SimJal(a, true, if Cfunc1(e) == 1 then 1 else 0, Read(a, rd), 0)
      else Breakpoint(SimBreak)
    else if f == 6 then SimStore(m, a, true, Read(a, rs2), Read(a, 2), Nat32(ImmCSwsp(e)), 2)
    else Unknown
  }

  /** executeQ0, executeQ1 and executeQ2 (sim/trace.cc:1616-1762). */
  function SimShort(m: I.Machine, a: I.Arch, e: bv32): Outcome {
    if e & 3 == 0 then SimQ0(m, a, e)
    else if e & 3 == 1 then SimQ1(a, e)
    else if e & 3 == 2 then SimQ2(m, a, e)
    else Unknown
  }

  function SimBranches(a: I.Arch, e: bv32): Outcome {
    var f, x, y := Func3(e), Read(a, Nat5(Rs1(e))), Read(a, Nat5(Rs2(e)));
    if f == 0 then SimBranch(a, false, x == y, OffsetTypeB(e))
    else if f == 1 then SimBranch(a, false, x != y, OffsetTypeB(e))
    else if f == 4 then SimBranch(a, false, Signed(x) < Signed(y), OffsetTypeB(e))
    else if f == 5 then SimBranch(a, false, Signed(x) >= Signed(y), OffsetTypeB(e))
    else if f == 6 then SimBranch(a, false, x < y, OffsetTypeB(e))
    else if f == 7 then SimBranch(a, false, x >= y, OffsetTypeB(e))
    else Unknown
  }

  function SimLoads(m: I.Machine, a: I.Arch, e: bv32): Outcome {
    var f, rd, base, imm := Func3(e), Nat5(Rd(e)), Read(a, Nat5(Rs1(e))), Nat32(ImmTypeI(e));
    if f == 0 then SimLoad(m, a, false, rd, base, imm, true, 0)
    else if f == 1 then SimLoad(m, a, false, rd, base, imm, true, 1)
    else if f == 2 then SimLoad(m, a, false, rd, base, imm, true, 2)
    else if f == 4 then SimLoad(m, a, false, rd, base, imm, false, 0)
    else if f == 5 then SimLoad(m, a, false, rd, base, imm, false, 1)
    else Unknown
  }

  function SimStores(m: I.Machine, a: I.Arch, e: bv32): Outcome {
    var f, value, base, imm := Func3(e), Read(a, Nat5(Rs2(e))), Read(a, Nat5(Rs1(e))), Nat32(ImmTypeS(e));
    if f == 0 then SimStore(m, a, false, value, base, imm, 0)
    else if f == 1 then SimStore(m, a, false, value, base, imm, 1)
    else if f == 2 then SimStore(m, a, false, value, base, imm, 2)
    else Unknown
  }

  function SimImmediates(a: I.Arch, e: bv32): Outcome {
    var f, x, imm := Func3(e), Read(a, Nat5(Rs1(e))), Nat32(ImmTypeI(e));
    SimAlu(a, false, Nat5(Rd(e)),
      if f == 0 then Plus(x, imm) else if f == 2 then (if Signed(x) < Signed(imm) then 1 else 0)
      else if f == 3 then (if x < imm then 1 else 0) else if f == 4 then Gated(XorGate, x, imm)
      else if f == 6 then Gated(OrGate, x, imm) else if f == 7 then Gated(AndGate, x, imm)
      else if f == 1 then ShiftLeft(x, imm)
      else if e & 0x4000_0000 != 0 then ShiftArith(x, imm) else ShiftRight(x, imm))
  }

  function SimRegisters(a: I.Arch, e: bv32): Outcome {
    var f, x, y := Func3(e), Read(a, Nat5(Rs1(e))), Read(a, Nat5(Rs2(e)));
    var alt := e & 0x4000_0000 != 0;
    SimAlu(a, false, Nat5(Rd(e)),
      if Func7(e) == 1 then M.SimM(MulOp(f), x, y)
      else if f == 0 then (if alt then Minus(x, y) else Plus(x, y))
      else if f == 2 then (if Signed(x) < Signed(y) then 1 else 0)
      else if f == 3 then (if x < y then 1 else 0) else if f == 4 then Gated(XorGate, x, y)
      else if f == 6 then Gated(OrGate, x, y) else if f == 7 then Gated(AndGate, x, y)
      else if f == 1 then ShiftLeft(x, y)
      else if alt then ShiftArith(x, y) else ShiftRight(x, y))
  }

  /** executeG on the base, multiply/divide and fence opcodes and on EBREAK (sim/trace.cc:1319-1508,
      1547-1588). Its switch has no default: on any other opcode the simulator changes nothing and stays
      at the same pc. */
  function SimLong(m: I.Machine, a: I.Arch, e: bv32): Outcome {
    var opc, rd := Opcode(e), Nat5(Rd(e));
    if opc == 0x37 then SimAlu(a, false, rd, Plus(0, Nat32(ImmTypeU(e))))
    else if opc == 0x17 then SimAlu(a, false, rd, Plus(a.pc, Nat32(ImmTypeU(e))))
    else if opc == 0x6f then SimJal(a, false, rd, a.pc, OffsetTypeJ(e))
    else if opc == 0x67 then SimJal(a, false, rd, Read(a, Nat5(Rs1(e))), Nat32(ImmTypeI(e)))
    else if opc == 0x63 then SimBranches(a, e)
    else if opc == 0x03 then SimLoads(m, a, e)
    else if opc == 0x23 then SimStores(m, a, e)
    else if opc == 0x13 then SimImmediates(a, e)
    else if opc == 0x33 then SimRegisters(a, e)
    else if opc == 0x0f then SimFence(a, e)
    else if EbreakWord(e) then Breakpoint(SimBreak)
    else if opc == 0x73 || opc == 0x2f then Elsewhere
    else Next(a, [])
  }

  predicate EbreakWord(e: bv32) { Opcode(e) == 0x73 && Func3(e) == 0 && (e >> 20) & 0xfff == 1 }

  function SimFence(a: I.Arch, e: bv32): Outcome {
    if Func3(e) == 0 || Func3(e) == 1 then Next(a.(pc := I.NextPc(a.pc, false)), []) else Unknown
  }
}
