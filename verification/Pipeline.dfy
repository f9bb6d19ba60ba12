/** The in-order core as one clocked state: every field is a register of the source, and `Next`
    is one rising edge of the clock (rtl/revive.sv:353-389 gives the wiring). */
module Pipeline {
  import opened Words
  import opened Isa
  import F = Frontend
  import M = Mdu

  // ---------------------------------------------------------------------------
  // Registers
  // ---------------------------------------------------------------------------

  datatype Except =
    | NoExcept
    | Mispred            // taken branch: fetch resumes at the address in `data`
    | MispredNoTrace     // the same, put there for a trapped instruction
    | Flush              // FENCE.I: fetch resumes behind the instruction
    | LoadMisalign | StoreMisalign | LoadPageFault | StorePageFault

  predicate IsStandard(e: Except) {
    e.LoadMisalign? || e.StoreMisalign? || e.LoadPageFault? || e.StorePageFault?
  }

  datatype Decoded = Decoded(pc: Word, d: Decode, valid: bool)
  datatype Issued = Issued(pc: Word, d: Decode, except: Except, valid: bool)
  datatype RegWb = RegWb(data: Word, idx: RegIdx, valid: bool)

  datatype Schedule = Schedule(inUse: set<RegIdx>, out: Issued)
  datatype RegFetch = RegFetch(ram: Regs, out: Issued, data1: Word, data2: Word)
  datatype ExecuteStage = ExecuteStage(inExcept: bool, out: Issued, data: Word, dataRs2: Word, mdu: M.State)
  datatype LdstUnit = LdstUnit(inExcept: bool, out: Issued, data: Word, ldData: Word)
  datatype CtrlStatus = CtrlStatus(out: Issued, data: Word)
  datatype Writeback = Writeback(regWb: RegWb, flush: bool, alter: bool, pc: Word, flushing: bool)

  datatype Core = Core(fe: F.State, id: Decoded, sch: Schedule, rf: RegFetch, ex: ExecuteStage,
                       ls: LdstUnit, cr: CtrlStatus, wb: Writeback, mem: Mem)

  const NO_DECODED := Decoded(0, NOP_DECODE, false)
  const NO_ISSUED := Issued(0, NOP_DECODE, NoExcept, false)
  const NO_REG_WB := RegWb(0, 0, false)
  const ZERO_REGS: Regs :=
    [0, 0, 0, 0, 0, 0, 0, 0, 0, 0, 0, 0, 0, 0, 0, 0,
     0, 0, 0, 0, 0, 0, 0, 0, 0, 0, 0, 0, 0, 0, 0, 0]

  function Reset(init: Pc, mem: Mem): Core {
    Core(F.Reset(init), NO_DECODED, Schedule({}, NO_ISSUED),
         RegFetch(ZERO_REGS, NO_ISSUED, 0, 0), ExecuteStage(false, NO_ISSUED, 0, 0, M.RESET),
         LdstUnit(false, NO_ISSUED, 0, 0), CtrlStatus(NO_ISSUED, 0),
         Writeback(NO_REG_WB, false, false, 0, false), mem)
  }

  // ---------------------------------------------------------------------------
  // Decode (rtl/core/decode.sv:42-67)
  // ---------------------------------------------------------------------------

  function NextDecoded(m: Machine, s: Decoded, instr: F.Aligned, stall: bool, flush: bool): Decoded {
    if flush then NO_DECODED
    else if stall then s
    else if !instr.valid then NO_DECODED
    else Decoded(instr.parcel.pc, DecodeParcel(m, instr.parcel), true)
  }

  // ---------------------------------------------------------------------------
  // Scheduler: one in-use bit per register (rtl/core/sched.sv:30-85)
  // ---------------------------------------------------------------------------

  predicate Ready(inUse: set<RegIdx>, sel: RegSel, wb: RegWb) {
    !sel.valid || sel.idx !in inUse || sel.idx == 0 || (wb.valid && sel.idx == wb.idx)
  }

  predicate AllReady(s: Schedule, d: Decode, wb: RegWb) {
    Ready(s.inUse, d.rs1, wb) && Ready(s.inUse, d.rs2, wb) && Ready(s.inUse, d.rd, wb)
  }

  predicate CanIssue(s: Schedule, id: Decoded, wb: RegWb, stall: bool) {
    !stall && id.valid && AllReady(s, id.d, wb)
  }

  predicate ScheduleStall(s: Schedule, id: Decoded, wb: RegWb, stall: bool) {
    stall || (id.valid && !AllReady(s, id.d, wb))
  }

  function NextInUse(s: Schedule, id: Decoded, wb: RegWb, stall: bool): set<RegIdx> {
    if CanIssue(s, id, wb, stall) then
      var marked := if id.d.rd.valid && id.d.rd.idx != 0 then s.inUse + {id.d.rd.idx} else s.inUse;
      if wb.valid && (!id.d.rd.valid || wb.idx != id.d.rd.idx) then marked - {wb.idx} else marked
    else if wb.valid then s.inUse - {wb.idx}
    else s.inUse
  }

  function NextSchedule(s: Schedule, id: Decoded, wb: RegWb, stall: bool, flush: bool): Schedule {
    Schedule(
      if flush then {} else NextInUse(s, id, wb, stall),
      if flush then NO_ISSUED
      else if !stall then Issued(id.pc, id.d, NoExcept, CanIssue(s, id, wb, stall))
      else s.out)
  }

  // ---------------------------------------------------------------------------
  // Register fetch over a read-old register file (rtl/core/reg_fetch.sv, rtl/lib/sram_1w2r.sv)
  // ---------------------------------------------------------------------------

  function WriteRam(ram: Regs, wb: RegWb): Regs {
    if wb.valid then ram[wb.idx := wb.data] else ram
  }

  function NextRegFetch(s: RegFetch, instr: Issued, wb: RegWb, stall: bool, flush: bool): RegFetch {
    RegFetch(
      WriteRam(s.ram, wb),
      if flush then NO_ISSUED else if !stall then instr else s.out,
      if !stall && instr.d.rs1.valid then s.ram[instr.d.rs1.idx] else s.data1,
      if !stall && instr.d.rs2.valid then s.ram[instr.d.rs2.idx] else s.data2)
  }

  // ---------------------------------------------------------------------------
  // Execute (rtl/core/exec.sv)
  // ---------------------------------------------------------------------------

  function Source1(rf: RegFetch): Word { Operand(rf.out.d.rs1Sel, rf.data1, rf.out.d.imm, rf.out.pc) }
  function Source2(rf: RegFetch): Word { Operand(rf.out.d.rs2Sel, rf.data2, rf.out.d.imm, rf.out.pc) }

  predicate MduEnable(rf: RegFetch) { rf.out.valid && rf.out.d.op.Mul? }
  predicate ExecuteStall(rf: RegFetch, ex: ExecuteStage) { MduEnable(rf) && !ex.mdu.outValid }

  function MduInput(rf: RegFetch, flush: bool): M.Input {
    M.Input(flush, false, MduEnable(rf), if rf.out.d.op.Mul? then rf.out.d.op.mul else M.MUL, Source1(rf), Source2(rf))
  }

  /** The `next_data` wire. */
  function NextData(m: Machine, rf: RegFetch, ex: ExecuteStage): Word {
    if !rf.out.valid then 0
    else
      match rf.out.d.op
      case Alu(op) => if op == FENCE then 0 else m.alu(op, Source1(rf), Source2(rf))
      case Mem(op) => Address(rf.out.d, Source1(rf))
      case Bru(op) =>
        if Taken(rf.out.d, Source1(rf), Source2(rf)) then Target(rf.out.d, rf.out.pc, Source1(rf))
        else Even(Plus(rf.out.pc, Length(rf.out.d.half)))
      case Mul(op) => ex.mdu.outDest
  }

  /** The `next_instr` wire. */
  function NextInstr(m: Machine, rf: RegFetch, ex: ExecuteStage): Issued {
    if !rf.out.valid then rf.out
    else
      match rf.out.d.op
      case Alu(op) => if op == FENCE then rf.out.(except := Flush) else rf.out
      case Mem(op) =>
        if Misaligned(rf.out.d.size, Address(rf.out.d, Source1(rf)))
        then rf.out.(except := if op == ST then StoreMisalign else LoadMisalign)
        else rf.out
      case Bru(op) =>
        if Taken(rf.out.d, Source1(rf), Source2(rf)) then rf.out.(except := Mispred) else rf.out
      case Mul(op) => if ex.mdu.outValid then rf.out else rf.out.(valid := false)
  }

  function NextExecute(m: Machine, s: ExecuteStage, rf: RegFetch, flush: bool): ExecuteStage {
    var instr := NextInstr(m, rf, s);
    ExecuteStage(
      !flush && (s.inExcept || (instr.valid && instr.except != NoExcept)),
      if flush then NO_ISSUED
      else if s.inExcept then Issued(rf.out.pc, rf.out.d, NoExcept, false)
      else instr,
      if flush then 0 else if s.inExcept then s.data else NextData(m, rf, s),
      if flush then 0 else if s.inExcept then s.dataRs2 else rf.data2,
      M.Next(s.mdu, MduInput(rf, flush)))
  }

  // ---------------------------------------------------------------------------
  // Load/store unit and its memory port (rtl/core/lsu.sv, sim/rtl.cc:148-233)
  // ---------------------------------------------------------------------------

  predicate IsMemOp(s: LdstUnit, ex: ExecuteStage) {
    !s.inExcept && ex.out.valid && ex.out.except == NoExcept && ex.out.d.op.Mem?
  }

  predicate PageFault(m: Machine, s: LdstUnit, ex: ExecuteStage) {
    IsMemOp(s, ex) && m.faults(ex.data, ex.out.d.op == Mem(ST))
  }

  function LoadedData(m: Machine, s: LdstUnit, ex: ExecuteStage, mem: Mem): Word {
    if IsMemOp(s, ex) && !PageFault(m, s, ex) && ex.out.d.op != Mem(ST)
    then Load(mem, ex.out.d.op.mem, ex.out.d.size, ex.data) else s.ldData
  }

  function NextLdstUnit(m: Machine, s: LdstUnit, ex: ExecuteStage, mem: Mem, flush: bool): LdstUnit {
    var fault := PageFault(m, s, ex);
    LdstUnit(
      !flush && (s.inExcept || (ex.out.valid && (ex.out.except != NoExcept || fault))),
      if flush then NO_ISSUED
      else if fault then ex.out.(except := if ex.out.d.op == Mem(ST) then StorePageFault else LoadPageFault)
      else ex.out,
      if flush then 0 else if IsMemOp(s, ex) then LoadedData(m, s, ex, mem) else ex.data,
      LoadedData(m, s, ex, mem))
  }

  function NextMem(m: Machine, s: LdstUnit, ex: ExecuteStage, mem: Mem): Mem {
    if IsMemOp(s, ex) && !PageFault(m, s, ex) && ex.out.d.op == Mem(ST)
    then Store(mem, ex.out.d.size, ex.data, ex.dataRs2) else mem
  }

  // ---------------------------------------------------------------------------
  // Control and status registers: only the trap redirect (rtl/core/csr.sv:235-262, 442-445)
  // ---------------------------------------------------------------------------

  function NextCtrlStatus(m: Machine, ls: LdstUnit, flush: bool): CtrlStatus {
    if flush then CtrlStatus(NO_ISSUED, 0)
    else if ls.out.valid && IsStandard(ls.out.except) then
      CtrlStatus(Issued(ls.out.pc, JrDecode(ls.out.d.half), MispredNoTrace, true), m.trapVector)
    else CtrlStatus(ls.out, ls.data)
  }

  // ---------------------------------------------------------------------------
  // Writeback (rtl/core/writeback.sv:30-79)
  // ---------------------------------------------------------------------------

  predicate WritesReg(d: Decode) {
    d.rd.idx != 0 && (d.rdSel == RdReg || d.rdSel == RdRegAndPc)
  }

  function SequentialPc(cr: CtrlStatus): Word { Plus(cr.out.pc, Length(cr.out.d.half)) }

  function RetiredWb(cr: CtrlStatus): RegWb {
    if cr.out.valid && WritesReg(cr.out.d)
    then RegWb(if cr.out.d.rdSel == RdRegAndPc then SequentialPc(cr) else cr.data, cr.out.d.rd.idx, true)
    else NO_REG_WB
  }

  function NextWriteback(s: Writeback, cr: CtrlStatus): Writeback {
    if s.flushing then Writeback(NO_REG_WB, false, false, 0, false)
    else
      var redirect := cr.out.valid && cr.out.except != NoExcept;
      Writeback(RetiredWb(cr), redirect, redirect,
                if redirect && (cr.out.except == Mispred || cr.out.except == MispredNoTrace)
                then cr.data else SequentialPc(cr),
                redirect)
  }

  // ---------------------------------------------------------------------------
  // The whole core
  // ---------------------------------------------------------------------------

  predicate CoreStall(c: Core) {
    ScheduleStall(c.sch, c.id, c.wb.regWb, ExecuteStall(c.rf, c.ex))
  }

  function FrontInput(c: Core): F.Input {
    F.Input(CoreStall(c), c.wb.flush, c.wb.alter, c.wb.pc, c.ex.inExcept || c.ls.inExcept)
  }

  /** One rising clock edge of the whole core. */
  function Next(m: Machine, c: Core): Core {
    var stall := ExecuteStall(c.rf, c.ex);
    var flush := c.wb.flush;
    Core(
      F.Next(m, c.fe, FrontInput(c)),
      NextDecoded(m, c.id, c.fe.out, CoreStall(c), flush),
      NextSchedule(c.sch, c.id, c.wb.regWb, stall, flush),
      NextRegFetch(c.rf, c.sch.out, c.wb.regWb, stall, flush),
      NextExecute(m, c.ex, c.rf, flush),
      NextLdstUnit(m, c.ls, c.ex, c.mem, flush),
      NextCtrlStatus(m, c.ls, flush),
      NextWriteback(c.wb, c.cr),
      NextMem(m, c.ls, c.ex, c.mem))
  }

  /** The core after t edges. */
  function Run(m: Machine, c: Core, t: nat): Core {
    if t == 0 then c else Next(m, Run(m, c, t - 1))
  }

  /** An instruction retires in every cycle in which writeback sees one and is not flushing. */
  predicate Retires(c: Core) { !c.wb.flushing && c.cr.out.valid }

  /** What writeback shows of it. */
  function RetiredEvent(c: Core): Event {
    var w := RetiredWb(c.cr);
    Event(c.cr.out.pc, if w.valid then RegSel(w.idx, true) else INVALID_REG, w.data)
  }

  /** The instructions retired in the first t cycles. */
  function Retired(m: Machine, c: Core, t: nat): seq<Event> {
    if t == 0 then []
    else
      var before := Run(m, c, t - 1);
      Retired(m, c, t - 1) + if Retires(before) then [RetiredEvent(before)] else []
  }

  /** The write the memory port makes in a cycle. */
  function StoreOfCycle(m: Machine, c: Core): seq<StoreEvent> {
    if IsMemOp(c.ls, c.ex) && !PageFault(m, c.ls, c.ex) && c.ex.out.d.op == Mem(ST)
    then PortWrite(c.ex.out.d.size, c.ex.data, c.ex.dataRs2) else []
  }

  /** The writes of the first t cycles. */
  function Stores(m: Machine, c: Core, t: nat): seq<StoreEvent> {
    if t == 0 then [] else Stores(m, c, t - 1) + StoreOfCycle(m, Run(m, c, t - 1))
  }

  /** Registers as the next reader will see them: the file with the write that is under way. */
  function RegView(c: Core): Regs { WriteRam(c.rf.ram, c.wb.regWb) }
}
