/** The instruction set as one-instruction-at-a-time execution: what one instruction does to
    registers, memory and pc. The clocked core is proved against this machine. */
module Isa {
  import opened Words
  import M = Mdu

  // ---------------------------------------------------------------------------
  // Decoded instructions (rtl/include/decode.svh)
  // ---------------------------------------------------------------------------

  type RegIdx = x: int | 0 <= x < 32
  type Imm20 = x: int | 0 <= x < 0x10_0000

  /** With the compressed extension on, every pc is even. */
  type Pc = x: int | 0 <= x < 0x1_0000_0000 && x % 2 == 0

  datatype AluOp = ALU_NONE | LUI | ADD | SUB | AND | OR | XOR | SLL | SRL | SRA | SLT | SLTU | FENCE
  datatype BruOp = BEQ | BLT | BLTU | JAL | JALR
  datatype MemOp = LD | LDU | ST

  /** `unit` and `op` of the source in one. */
  datatype Op = Alu(alu: AluOp) | Bru(bru: BruOp) | Mul(mul: M.MduOp) | Mem(mem: MemOp)

  datatype RegSel = RegSel(idx: RegIdx, valid: bool)
  datatype RsSel = RsNone | RsReg | RsImm | RsPc
  datatype RdSel = RdNone | RdReg | RdPc | RdRegAndPc

  const INVALID_REG := RegSel(0, false)

  datatype Fields = Fields(op: Op, size: nat, rd: RegSel, rdSel: RdSel,
                           rs1: RegSel, rs1Sel: RsSel, rs2: RegSel, rs2Sel: RsSel, imm: Imm20, half: bool)

  /** The shape every legal row of the field decoder gives its result. */
  predicate WellFormed(d: Fields) {
    && (d.rd.valid <==> (d.rdSel == RdReg || d.rdSel == RdRegAndPc))
    && (!d.rd.valid ==> d.rd.idx == 0)
    && (d.rs1Sel == RsReg ==> d.rs1.valid)
    && (d.rs2Sel == RsReg ==> d.rs2.valid)
    && (d.op.Bru? <==> (d.rdSel == RdPc || d.rdSel == RdRegAndPc || (d.op == Bru(JALR) && d.rdSel == RdNone)))
    && (d.op == Alu(FENCE) ==> d.rdSel == RdNone)
    && (d.op.Mem? ==> d.size <= 3)
    && (d.op == Mem(ST) ==> d.rdSel == RdNone && d.rs2Sel == RsReg)
    && (d.op == Mem(LD) || d.op == Mem(LDU) ==> d.rdSel == RdReg)
  }

  type Decode = d: Fields | WellFormed(d)
    witness Fields(Alu(ALU_NONE), 0, INVALID_REG, RdNone, INVALID_REG, RsNone, INVALID_REG, RsNone, 0, false)

  const NOP_DECODE: Decode := Fields(Alu(ALU_NONE), 0, INVALID_REG, RdNone, INVALID_REG, RsNone, INVALID_REG, RsNone,
      0, false)

  /** The indirect jump the trap stage puts in place of a faulting instruction. */
  function JrDecode(half: bool): Decode {
    Fields(Bru(JALR), 0, INVALID_REG, RdNone, INVALID_REG, RsNone, INVALID_REG, RsNone, 0, half)
  }

  function ExtendImm(imm: Imm20): Word {
    if imm >= 0x8_0000 then imm + 0xfff0_0000 else imm
  }

  // ---------------------------------------------------------------------------
  // What is left open: decoder, decompressor, ALU, program, faulting addresses
  // ---------------------------------------------------------------------------

  type Mem = Word -> Byte
  type Regs = s: seq<Word> | |s| == 32 witness seq(32, _ => 0)

  /** A program and the combinational tables it runs on. The proofs hold for every choice. */
  datatype Machine = Machine(
    program: Word -> Half,            // half-word of code at a byte address
    expand: Half -> Word,             // decompressor
    decode: Word -> Decode,           // field decoder, `half` aside
    alu: (AluOp, Word, Word) -> Word, // arithmetic unit
    faults: (Word, bool) -> bool,     // page fault at (address, is store)
    trapVector: Pc)                   // where a fault enters its handler

  datatype Arch = Arch(pc: Pc, regs: Regs, mem: Mem)

  // ---------------------------------------------------------------------------
  // Fetching one instruction from the half-word stream
  // ---------------------------------------------------------------------------

  datatype Parcel = Parcel(pc: Word, instr: Word, half: bool)

  predicate IsShort(h: Half) { h % 4 != 3 }

  function ParcelAt(m: Machine, pc: Word): Parcel {
    var h := m.program(pc);
    if IsShort(h) then Parcel(pc, m.expand(h), true)
    else Parcel(pc, h + 0x1_0000 * m.program(Plus(pc, 2)), false)
  }

  function Length(half: bool): nat { if half then 2 else 4 }

  function DecodeParcel(m: Machine, p: Parcel): Decode {
    m.decode(p.instr).(half := p.half)
  }

  function InstrAt(m: Machine, pc: Word): Decode {
    DecodeParcel(m, ParcelAt(m, pc))
  }

  // ---------------------------------------------------------------------------
  // Operands, branches, memory
  // ---------------------------------------------------------------------------

  function Operand(sel: RsSel, reg: Word, imm: Imm20, pc: Word): Word {
    match sel
    case RsReg => reg
    case RsImm => ExtendImm(imm)
    case RsPc => pc
    case RsNone => 0
  }

  function Operand1(d: Decode, regs: Regs, pc: Word): Word {
    Operand(d.rs1Sel, regs[d.rs1.idx], d.imm, pc)
  }

  function Operand2(d: Decode, regs: Regs, pc: Word): Word {
    Operand(d.rs2Sel, regs[d.rs2.idx], d.imm, pc)
  }

  predicate Condition(op: BruOp, a: Word, b: Word) {
    match op
    case BEQ => a == b
    case BLT => Signed(a) < Signed(b)
    case BLTU => a < b
    case JAL => true
    case JALR => true
  }

  /** Bit 0 of `size` inverts the condition of a branch. */
  predicate Taken(d: Decode, a: Word, b: Word)
    requires d.op.Bru?
  {
    Condition(d.op.bru, a, b) != (d.size % 2 == 1)
  }

  /** Bit 0 cleared. */
  function Even(w: Word): Pc {
    w - w % 2
  }

  function Target(d: Decode, pc: Word, a: Word): Pc {
    if d.op == Bru(JALR) then Even(Plus(a, ExtendImm(d.imm))) else Even(ToWord(pc + 2 * ExtendImm(d.imm)))
  }

  function NextPc(pc: Pc, half: bool): Pc {
    Plus(pc, Length(half))
  }

  function Address(d: Decode, a: Word): Word {
    Plus(a, ExtendImm(d.imm))
  }

  predicate Misaligned(size: nat, addr: Word) {
    (size == 1 && addr % 2 != 0) || (size == 2 && addr % 4 != 0) || (size >= 3 && addr % 8 != 0)
  }

  /** The memory port knows no access of eight bytes: it loads zero and stores nothing
      (sim/rtl.cc:172-223). */
  function LoadUnsigned(mem: Mem, size: nat, addr: Word): Word {
    if size == 0 then mem(addr)
    else if size == 1 then mem(addr) + 0x100 * mem(Plus(addr, 1))
    else if size >= 3 then 0
    else mem(addr) + 0x100 * mem(Plus(addr, 1)) + 0x1_0000 * mem(Plus(addr, 2)) + 0x100_0000 * mem(Plus(addr, 3))
  }

  function SignExtend(size: nat, v: Word): Word {
    if size == 0 && 0x80 <= v < 0x100 then v + 0xffff_ff00
    else if size == 1 && 0x8000 <= v < 0x1_0000 then v + 0xffff_0000
    else v
  }

  function Load(mem: Mem, op: MemOp, size: nat, addr: Word): Word {
    var v := LoadUnsigned(mem, size, addr);
    if op == LD then SignExtend(size, v) else v
  }

  function ByteOf(v: Word, k: nat): Byte {
    if k == 0 then v % 0x100 else if k == 1 then v / 0x100 % 0x100
    else if k == 2 then v / 0x1_0000 % 0x100 else v / 0x100_0000
  }

  function Store(mem: Mem, size: nat, addr: Word, v: Word): Mem {
    if size >= 3 then mem
    else
      (x: Word) =>
        if x == addr then ByteOf(v, 0)
        else if size >= 1 && x == Plus(addr, 1) then ByteOf(v, 1)
        else if size >= 2 && x == Plus(addr, 2) then ByteOf(v, 2)
        else if size >= 2 && x == Plus(addr, 3) then ByteOf(v, 3)
        else mem(x)
  }

  /** One write as the memory port sees it: an access of 2^size bytes. A device behind the port
      sees every one of them, in order. */
  datatype StoreEvent = StoreEvent(addr: Word, size: nat, data: Word)

  /** The part of a register that a store puts out. */
  function StoreData(size: nat, v: Word): Word {
    if size == 0 then v % 0x100 else if size == 1 then v % 0x1_0000 else v
  }

  function PortWrite(size: nat, addr: Word, v: Word): seq<StoreEvent> {
    if size >= 3 then [] else [StoreEvent(addr, size, StoreData(size, v))]
  }

  // ---------------------------------------------------------------------------
  // One instruction
  // ---------------------------------------------------------------------------

  function WriteReg(regs: Regs, rd: RegSel, v: Word): Regs {
    if rd.valid && rd.idx != 0 then regs[rd.idx := v] else regs
  }

  /** A memory instruction traps on a misaligned or a faulting address. */
  predicate MemTraps(m: Machine, d: Decode, addr: Word) {
    Misaligned(d.size, addr) || m.faults(addr, d.op == Mem(ST))
  }

  function Execute(m: Machine, a: Arch): Arch { Perform(m, a, InstrAt(m, a.pc)) }

  /** What a decoded instruction does at a.pc. */
  function Perform(m: Machine, a: Arch, d: Decode): Arch {
    var x, y := Operand1(d, a.regs, a.pc), Operand2(d, a.regs, a.pc);
    var next := NextPc(a.pc, d.half);
    match d.op
    case Alu(op) =>
      a.(pc := next, regs := WriteReg(a.regs, d.rd, m.alu(op, x, y)))
    case Bru(op) =>
      a.(pc := if Taken(d, x, y) then Target(d, a.pc, x) else next,
         regs := WriteReg(a.regs, d.rd, next))
    case Mul(op) =>
      a.(pc := next, regs := WriteReg(a.regs, d.rd, M.Rv32M(op, x, y)))
    case Mem(op) =>
      var addr := Address(d, x);
      if MemTraps(m, d, addr) then
        a.(pc := m.trapVector)
      else if op == ST then
        a.(pc := next, mem := Store(a.mem, d.size, addr, a.regs[d.rs2.idx]))
      else
        a.(pc := next, regs := WriteReg(a.regs, d.rd, Load(a.mem, op, d.size, addr)))
  }

  /** The write a decoded instruction makes at a.pc, if any. */
  function StoreBy(m: Machine, a: Arch, d: Decode): seq<StoreEvent> {
    var addr := Address(d, Operand1(d, a.regs, a.pc));
    if d.op == Mem(ST) && !MemTraps(m, d, addr) then PortWrite(d.size, addr, a.regs[d.rs2.idx]) else []
  }

  function StoreOf(m: Machine, a: Arch): seq<StoreEvent> { StoreBy(m, a, InstrAt(m, a.pc)) }

  /** The machine after n instructions. */
  function Execution(m: Machine, a: Arch, n: nat): Arch {
    if n == 0 then a else Execute(m, Execution(m, a, n - 1))
  }

  /** What one retired instruction shows: its pc and the register it wrote, if any. */
  datatype Event = Event(pc: Word, rd: RegSel, value: Word)

  function EventOf(m: Machine, a: Arch): Event {
    var d := InstrAt(m, a.pc);
    var trap := d.op.Mem? && MemTraps(m, d, Address(d, Operand1(d, a.regs, a.pc)));
    if trap || !d.rd.valid || d.rd.idx == 0 then Event(a.pc, INVALID_REG, 0)
    else Event(a.pc, d.rd, Execute(m, a).regs[d.rd.idx])
  }

  /** The events of the first n instructions. */
  function Trace(m: Machine, a: Arch, n: nat): seq<Event> {
    if n == 0 then [] else Trace(m, a, n - 1) + [EventOf(m, Execution(m, a, n - 1))]
  }

  /** The writes of the first n instructions. */
  function StoreLog(m: Machine, a: Arch, n: nat): seq<StoreEvent> {
    if n == 0 then [] else StoreLog(m, a, n - 1) + StoreOf(m, Execution(m, a, n - 1))
  }

  /** Memory with a list of writes played into it. */
  function Replay(mem: Mem, log: seq<StoreEvent>): Mem {
    if log == [] then mem
    else
      var last := log[|log| - 1];
      Store(Replay(mem, log[..|log| - 1]), last.size, last.addr, last.data)
  }
}
