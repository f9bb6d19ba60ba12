/** The units of the core with their registers updated in place, one class per module and one
    `Clock` per rising edge. Inputs are the wires of the cycle; each unit's new registers are those of
    the proven clock function. `Revive` wires the units together (rtl/revive.sv:353-389). */
module Rtl {
  import opened Words
  import opened Isa
  import F = Frontend
  import M = Mdu
  import P = Pipeline
  import R = Refinement
  import L = Liveness

  // ---------------------------------------------------------------------------
  // Front end
  // ---------------------------------------------------------------------------

  class ProgramCounter {
    var pc: Word

    constructor (init: Word)
      ensures pc == init
    {
      pc := init;
    }

    method Clock(stall: bool, alter: bool, target: Word)
      modifies this
      ensures pc == if alter then target else if stall then old(pc) else F.NextBlock(old(pc))
    {
      if alter {
        pc := target;
      } else if !stall {
        pc := F.NextBlock(pc);
      }
    }
  }

  class Fetch {
    var data: F.Fetched

    constructor ()
      ensures data == F.NO_FETCH
    {
      data := F.NO_FETCH;
    }

    /** `data0` and `data1` are what the fetch port returns for the word that holds pc. */
    method Clock(stall: bool, flush: bool, pc: Word, data0: Half, data1: Half)
      modifies this
      ensures data == if flush then F.NO_FETCH else if stall then old(data) else F.Fetched(pc, data0, data1, true)
    {
      if flush {
        data := F.NO_FETCH;
      } else if !stall {
        data := F.Fetched(pc, data0, data1, true);
      }
    }
  }

  class Align {
    var second: F.Second
    var out: F.Aligned

    constructor ()
      ensures second == F.NO_SECOND && out == F.NO_INSTR
    {
      second, out := F.NO_SECOND, F.NO_INSTR;
    }

    /** Whether s is the front end's state in this cycle. */
    ghost predicate Sees(data: F.Fetched, s: F.State)
      reads this
    {
      s.data == data && s.second == second && s.out == out
    }

    /** The stall it sends back to the fetch unit. */
    function SecondIsShort(): bool
      reads this
    {
      second.valid && IsShort(second.instr)
    }

    method NextInstr(m: Machine, data: F.Fetched, ghost s: F.State) returns (next: F.Aligned)
      requires Sees(data, s)
      ensures next == F.NextAligned(m, s)
    {
      if !data.valid && !second.valid {
        next := F.Aligned(Parcel(0, F.NOP_ENCODING, false), false);
      } else if second.valid && IsShort(second.instr) {
        next := F.Aligned(Parcel(second.pc, m.expand(second.instr), true), true);
      } else if second.valid && data.valid {
        next := F.Aligned(Parcel(second.pc, second.instr + 0x1_0000 * data.data0, false), true);
      } else if !second.valid && !F.UpperPc(data.pc) {
        next := if IsShort(data.data0) then F.Aligned(Parcel(data.pc, m.expand(data.data0), true), true)
                else F.Aligned(Parcel(data.pc, data.data0 + 0x1_0000 * data.data1, false), true);
      } else if !second.valid && IsShort(data.data1) {
        next := F.Aligned(Parcel(data.pc, m.expand(data.data1), true), true);
      } else {
        next := F.Aligned(Parcel(0, F.NOP_ENCODING, false), false);
      }
    }

    method Clock(m: Machine, stall: bool, flush: bool, data: F.Fetched, ghost s: F.State)
      requires Sees(data, s)
      modifies this
      ensures second == if flush then F.NO_SECOND else if stall then old(second) else F.NextSecond(s)
      ensures out == if flush then F.NO_INSTR else if stall then old(out) else F.NextAligned(m, s)
    {
      if flush {
        second, out := F.NO_SECOND, F.NO_INSTR;
      } else if !stall {
        var next := NextInstr(m, data, s);
        var shortSecond := second.valid && IsShort(second.instr);
        var longThird := !second.valid && data.valid && !F.UpperPc(data.pc) && !IsShort(data.data0);
        var shortForth := !second.valid && data.valid && F.UpperPc(data.pc) && IsShort(data.data1);
        if shortSecond || !data.valid || longThird || shortForth {
          second := F.NO_SECOND;
        } else {
          second := F.Second(true, data.data1, Plus(F.Block(data.pc), 2));
        }
        out := next;
      }
    }
  }

  class Decoder {
    var out: P.Decoded

    constructor ()
      ensures out == P.NO_DECODED
    {
      out := P.NO_DECODED;
    }

    method Clock(m: Machine, stall: bool, flush: bool, instr: F.Aligned)
      modifies this
      ensures out == P.NextDecoded(m, old(out), instr, stall, flush)
    {
      if flush {
        out := P.NO_DECODED;
      } else if !stall {
        if !instr.valid {
          out := P.NO_DECODED;
        } else {
          out := P.Decoded(instr.parcel.pc, DecodeParcel(m, instr.parcel), true);
        }
      }
    }
  }

  // ---------------------------------------------------------------------------
  // Scheduler
  // ---------------------------------------------------------------------------

  class Scheduler {
    const intRegInuse: array<bool>
    var out: P.Issued

    constructor ()
      ensures Valid() && Registers() == P.Schedule({}, P.NO_ISSUED) && fresh(intRegInuse)
    {
      intRegInuse := new bool[32](_ => false);
      out := P.NO_ISSUED;
      new;
      assert InUse() == {};
    }

    ghost predicate Valid() { intRegInuse.Length == 32 }

    ghost function InUse(): set<RegIdx>
      requires Valid()
      reads intRegInuse
    {
      set r: RegIdx | r < 32 && intRegInuse[r]
    }

    ghost function Registers(): P.Schedule
      requires Valid()
      reads this, intRegInuse
    {
      P.Schedule(InUse(), out)
    }

    function Ready(sel: RegSel, wb: P.RegWb): (ready: bool)
      requires Valid()
      reads intRegInuse
      ensures ready == P.Ready(InUse(), sel, wb)
    {
      !sel.valid || !intRegInuse[sel.idx] || sel.idx == 0 || (wb.valid && sel.idx == wb.idx)
    }

    function AllReady(d: Decode, wb: P.RegWb): bool
      requires Valid()
      reads intRegInuse
    {
      Ready(d.rs1, wb) && Ready(d.rs2, wb) && Ready(d.rd, wb)
    }

    method SetInUse(r: RegIdx, value: bool)
      requires Valid()
      modifies intRegInuse
      ensures InUse() == if value then old(InUse()) + {r} else old(InUse()) - {r}
    {
      intRegInuse[r] := value;
    }

    method UpdateInUse(id: P.Decoded, wb: P.RegWb, canIssue: bool, flush: bool)
      requires Valid()
      modifies intRegInuse
      ensures var marked := if id.d.rd.valid && id.d.rd.idx != 0 then old(InUse()) + {id.d.rd.idx} else old(InUse());
              InUse() ==
              if flush then {}
              else if canIssue then
                if wb.valid && (!id.d.rd.valid || wb.idx != id.d.rd.idx) then marked - {wb.idx} else marked
              else if wb.valid then old(InUse()) - {wb.idx} else old(InUse())
    {
      if flush {
        for r := 0 to 32
          invariant forall k | 0 <= k < r :: !intRegInuse[k]
        {
          intRegInuse[r] := false;
        }
      } else if canIssue {
        if id.d.rd.valid && id.d.rd.idx != 0 {
          SetInUse(id.d.rd.idx, true);
        }
        if wb.valid && (!id.d.rd.valid || wb.idx != id.d.rd.idx) {
          SetInUse(wb.idx, false);
        }
      } else if wb.valid {
        SetInUse(wb.idx, false);
      }
    }

    method Clock(id: P.Decoded, wb: P.RegWb, stall: bool, flush: bool)
      requires Valid()
      modifies this, intRegInuse
      ensures Registers() == P.NextSchedule(old(Registers()), id, wb, stall, flush)
    {
      var canIssue := !stall && id.valid && AllReady(id.d, wb);
      UpdateInUse(id, wb, canIssue, flush);
      if flush {
        out := P.NO_ISSUED;
      } else if !stall {
        out := P.Issued(id.pc, id.d, P.NoExcept, canIssue);
      }
    }
  }

  // ---------------------------------------------------------------------------
  // Register fetch
  // ---------------------------------------------------------------------------

  class RegisterFetch {
    const blockRam: array<Word>
    var out: P.Issued
    var data1: Word
    var data2: Word

    constructor ()
      ensures Valid() && Registers() == P.RegFetch(P.ZERO_REGS, P.NO_ISSUED, 0, 0) && fresh(blockRam)
    {
      blockRam := new Word[32](_ => 0);
      out, data1, data2 := P.NO_ISSUED, 0, 0;
      new;
      assert blockRam[..] == P.ZERO_REGS;
    }

    ghost predicate Valid() { blockRam.Length == 32 }

    function Registers(): P.RegFetch
      requires Valid()
      reads this, blockRam
    {
      P.RegFetch(blockRam[..], out, data1, data2)
    }

    /** The register file: both read ports get the contents before the write. */
    method ClockRam(wb: P.RegWb, rs1: RegSel, rs2: RegSel, stall: bool)
      requires Valid()
      modifies this`data1, this`data2, blockRam
      ensures blockRam[..] == P.WriteRam(old(blockRam[..]), wb)
      ensures data1 == if !stall && rs1.valid then old(blockRam[rs1.idx]) else old(data1)
      ensures data2 == if !stall && rs2.valid then old(blockRam[rs2.idx]) else old(data2)
    {
      if !stall && rs1.valid { data1 := blockRam[rs1.idx]; }
      if !stall && rs2.valid { data2 := blockRam[rs2.idx]; }
      if wb.valid { blockRam[wb.idx] := wb.data; }
    }

    method Clock(instr: P.Issued, wb: P.RegWb, stall: bool, flush: bool)
      requires Valid()
      modifies this, blockRam
      ensures Registers() == P.NextRegFetch(old(Registers()), instr, wb, stall, flush)
    {
      ClockRam(wb, instr.d.rs1, instr.d.rs2, stall);
      if flush {
        out := P.NO_ISSUED;
      } else if !stall {
        out := instr;
      }
    }
  }

  // ---------------------------------------------------------------------------
  // Multiply/divide unit
  // ---------------------------------------------------------------------------

  class MulDivUnit {
    var busy: bool
    var computing: bool
    var valid: bool
    var dest: Word
    var outValid: bool
    var outDest: Word
    var multiplicand: DWord
    var multiplier: Word
    var product: DWord
    var dividend: Word
    var divisor: DWord
    var quotient: Word
    var step: nat

    constructor ()
      ensures Registers() == M.RESET
    {
      busy, computing, valid, dest, outValid, outDest := false, false, false, 0, false, 0;
      multiplicand, multiplier, product, dividend, divisor, quotient, step := 0, 0, 0, 0, 0, 0, 0;
    }

    function Registers(): M.State
      reads this
    {
      M.State(busy, computing, valid, dest, outValid, outDest, multiplicand, multiplier, product, dividend, divisor,
          quotient, step)
    }

    method NewJob(i: M.Input)
      modifies this
      ensures Registers() == M.NewJob(old(Registers()).(busy := true), i)
    {
      hide M.Source1, M.Source2, M.IsDiv;
      busy := true;
      if M.IsMul(i.op) {
        if i.a == 0 {
          valid, dest := true, 0;
        } else {
          computing := true;
          multiplicand, multiplier, product := M.Source1(i.op, i.a), M.Source2(i.op, i.b), 0;
        }
      } else if M.Source2(i.op, i.b) == 0 {
        valid, dest := true, if M.IsDiv(i.op) then 0xffff_ffff else i.a;
      } else {
        computing := true;
        dividend, divisor := M.Source1(i.op, i.a), M.Source2(i.op, i.b) * 0x8000_0000;
        quotient, step := 0, 0;
      }
    }

    method MulStep(i: M.Input)
      modifies this
      ensures Registers() == M.MulStep(old(Registers()), i)
    {
      if multiplicand == 0 || multiplier == 0 {
        computing, valid, dest := false, true, M.MulResult(i, product);
      } else {
        product := ((if multiplier % 2 == 1 then multiplicand else 0) + product) % 0x1_0000_0000_0000_0000;
        multiplicand := (2 * multiplicand) % 0x1_0000_0000_0000_0000;
        multiplier := multiplier / 2;
      }
    }

    method DivStep(i: M.Input)
      modifies this
      ensures Registers() == M.DivStep(old(Registers()), i)
    {
      if step == 32 {
        computing, valid, dest := false, true, M.DivResult(i, quotient, dividend);
      } else {
        if divisor <= dividend {
          dividend := ToWord(dividend - divisor % 0x1_0000_0000);
          quotient := (2 * quotient + 1) % 0x1_0000_0000;
        } else {
          quotient := (2 * quotient) % 0x1_0000_0000;
        }
        divisor := divisor / 2;
        step := (step + 1) % 64;
      }
    }

    method Clock(i: M.Input)
      modifies this
      ensures Registers() == M.Next(old(Registers()), i)
    {
      hide M.NewJob, M.MulStep, M.DivStep;
      if i.flush {
        busy, computing, valid, dest, outValid, outDest := false, false, false, 0, false, 0;
      } else if !i.enable && busy {
      } else if !i.stall && valid {
        outValid, outDest := true, dest;
        busy, valid, dest := false, false, 0;
      } else if !i.stall && outValid {
        outValid, outDest := false, 0;
      } else if i.enable && !busy {
        NewJob(i);
      } else if computing && M.IsMul(i.op) {
        MulStep(i);
      } else if computing {
        DivStep(i);
      }
    }
  }

  // ---------------------------------------------------------------------------
  // Execute
  // ---------------------------------------------------------------------------

  class ExecuteUnit {
    var inExcept: bool
    var out: P.Issued
    var data: Word
    var dataRs2: Word
    const mdu: MulDivUnit

    constructor ()
      ensures Registers() == P.ExecuteStage(false, P.NO_ISSUED, 0, 0, M.RESET) && fresh(mdu)
    {
      inExcept, out, data, dataRs2 := false, P.NO_ISSUED, 0, 0;
      mdu := new MulDivUnit();
    }

    function Registers(): P.ExecuteStage
      reads this, mdu
    {
      P.ExecuteStage(inExcept, out, data, dataRs2, mdu.Registers())
    }

    /** The stall it sends to the stages before it. */
    function Stall(rf: P.RegFetch): (stall: bool)
      reads this, mdu
      ensures stall == P.ExecuteStall(rf, Registers())
    {
      rf.out.valid && rf.out.d.op.Mul? && !mdu.outValid
    }

    /** The combinational block: the instruction handed on, and its data. */
    method NextWires(m: Machine, rf: P.RegFetch) returns (next: P.Issued, value: Word)
      ensures next == P.NextInstr(m, rf, Registers()) && value == P.NextData(m, rf, Registers())
    {
      var a, b := P.Source1(rf), P.Source2(rf);
      next, value := rf.out, 0;
      if !rf.out.valid {
        return;
      }
      match rf.out.d.op {
        case Alu(op) =>
          if op == FENCE { next := rf.out.(except := P.Flush); } else { value := m.alu(op, a, b); }
        case Mem(op) =>
          value := Address(rf.out.d, a);
          if Misaligned(rf.out.d.size, value) {
            next := rf.out.(except := if op == ST then P.StoreMisalign else P.LoadMisalign);
          }
        case Bru(op) =>
          if Taken(rf.out.d, a, b) {
            next, value := rf.out.(except := P.Mispred), Target(rf.out.d, rf.out.pc, a);
          } else {
            value := Even(Plus(rf.out.pc, Length(rf.out.d.half)));
          }
        case Mul(op) =>
          value := mdu.outDest;
          if !mdu.outValid { next := rf.out.(valid := false); }
      }
    }

    method Clock(m: Machine, rf: P.RegFetch, flush: bool)
      modifies this, mdu
      ensures Registers() == P.NextExecute(m, old(Registers()), rf, flush)
    {
      hide P.NextInstr, P.NextData, M.Next;
      var next, value := NextWires(m, rf);
      if flush {
        out, data, dataRs2 := P.NO_ISSUED, 0, 0;
      } else if inExcept {
        out := P.Issued(rf.out.pc, rf.out.d, P.NoExcept, false);
      } else {
        out, data, dataRs2 := next, value, rf.data2;
      }
      if flush {
        inExcept := false;
      } else if next.valid && next.except != P.NoExcept {
        inExcept := true;
      }
      mdu.Clock(P.MduInput(rf, flush));
    }
  }

  // ---------------------------------------------------------------------------
  // Load/store unit, trap redirect, writeback
  // ---------------------------------------------------------------------------

  class LoadStoreUnit {
    var inExcept: bool
    var out: P.Issued
    var data: Word
    var ldData: Word

    constructor ()
      ensures Registers() == P.LdstUnit(false, P.NO_ISSUED, 0, 0)
    {
      inExcept, out, data, ldData := false, P.NO_ISSUED, 0, 0;
    }

    function Registers(): P.LdstUnit
      reads this
    {
      P.LdstUnit(inExcept, out, data, ldData)
    }

    /** The memory port serves the access in the cycle, before the edge. */
    method Access(m: Machine, ex: P.ExecuteStage, mem: Mem) returns (isMem: bool, fault: bool, after: Mem)
      modifies this`ldData
      ensures isMem == old(P.IsMemOp(Registers(), ex)) && fault == old(P.PageFault(m, Registers(), ex))
      ensures ldData == old(P.LoadedData(m, Registers(), ex, mem)) && after == old(P.NextMem(m, Registers(), ex, mem))
    {
      isMem := !inExcept && ex.out.valid && ex.out.except == P.NoExcept && ex.out.d.op.Mem?;
      fault := isMem && m.faults(ex.data, ex.out.d.op == Op.Mem(ST));
      after := mem;
      if isMem && !fault {
        if ex.out.d.op == Op.Mem(ST) {
          after := Store(mem, ex.out.d.size, ex.data, ex.dataRs2);
        } else {
          ldData := Load(mem, ex.out.d.op.mem, ex.out.d.size, ex.data);
        }
      }
    }

    method Clock(m: Machine, ex: P.ExecuteStage, mem: Mem, flush: bool) returns (after: Mem)
      modifies this
      ensures Registers() == P.NextLdstUnit(m, old(Registers()), ex, mem, flush)
      ensures after == P.NextMem(m, old(Registers()), ex, mem)
    {
      hide P.LoadedData, P.NextMem;
      var isMem, fault, next := Access(m, ex, mem);
      after := next;
      if flush {
        out, data, inExcept := P.NO_ISSUED, 0, false;
      } else {
        if !fault {
          out := ex.out;
        } else if ex.out.d.op == Op.Mem(ST) {
          out := ex.out.(except := P.StorePageFault);
        } else {
          out := ex.out.(except := P.LoadPageFault);
        }
        data := if isMem then ldData else ex.data;
        if ex.out.valid && (ex.out.except != P.NoExcept || fault) {
          inExcept := true;
        }
      }
    }
  }

  class CtrlStatusReg {
    var out: P.Issued
    var data: Word

    constructor ()
      ensures Registers() == P.CtrlStatus(P.NO_ISSUED, 0)
    {
      out, data := P.NO_ISSUED, 0;
    }

    function Registers(): P.CtrlStatus
      reads this
    {
      P.CtrlStatus(out, data)
    }

    method Clock(m: Machine, ls: P.LdstUnit, flush: bool)
      modifies this
      ensures Registers() == P.NextCtrlStatus(m, ls, flush)
    {
      if flush {
        out, data := P.NO_ISSUED, 0;
      } else if ls.out.valid && P.IsStandard(ls.out.except) {
        out, data := P.Issued(ls.out.pc, JrDecode(ls.out.d.half), P.MispredNoTrace, true), m.trapVector;
      } else {
        out, data := ls.out, ls.data;
      }
    }
  }

  class WritebackUnit {
    var regWb: P.RegWb
    var flush: bool
    var alter: bool
    var pc: Word
    var flushing: bool

    constructor ()
      ensures Registers() == P.Writeback(P.NO_REG_WB, false, false, 0, false)
    {
      regWb, flush, alter, pc, flushing := P.NO_REG_WB, false, false, 0, false;
    }

    function Registers(): P.Writeback
      reads this
    {
      P.Writeback(regWb, flush, alter, pc, flushing)
    }

    method Clock(cr: P.CtrlStatus)
      modifies this
      ensures Registers() == P.NextWriteback(old(Registers()), cr)
    {
      if flushing {
        regWb, flush, alter, pc, flushing := P.NO_REG_WB, false, false, 0, false;
      } else {
        var sequential := Plus(cr.out.pc, Length(cr.out.d.half));
        var except := cr.out.valid && cr.out.except != P.NoExcept;
        var pcInData := except && (cr.out.except == P.Mispred || cr.out.except == P.MispredNoTrace);
        var writes := cr.out.valid && cr.out.d.rd.idx != 0 && (cr.out.d.rdSel == RdReg || cr.out.d.rdSel == RdRegAndPc);
        regWb := if writes then P.RegWb(if cr.out.d.rdSel == RdRegAndPc then sequential else cr.data, cr.out.d.rd.idx,
            true)
                 else P.NO_REG_WB;
        flush, alter, flushing := except, except, except;
        pc := if pcInData then cr.data else sequential;
      }
    }
  }

  // ---------------------------------------------------------------------------
  // The whole core
  // ---------------------------------------------------------------------------

  /** Program counter, fetch register and aligner. */
  class FrontEnd {
    const pc: ProgramCounter
    const fetch: Fetch
    const align: Align

    constructor (init: Word)
      ensures Registers() == F.Reset(init) && fresh(pc) && fresh(fetch) && fresh(align)
    {
      pc := new ProgramCounter(init);
      fetch := new Fetch();
      align := new Align();
    }

    function Registers(): F.State
      reads pc, fetch, align
    {
      F.State(pc.pc, fetch.data, align.second, align.out)
    }

    method Clock(m: Machine, stall: bool, flush: bool, alter: bool, target: Word, blind: bool)
      modifies pc, fetch, align
      ensures Registers() == F.Next(m, old(Registers()), F.Input(stall, flush, alter, target, blind))
    {
      var now := Registers();
      var alignStall := stall || align.SecondIsShort();
      var data0 := if blind then 0 else m.program(F.Block(now.pc));
      var data1 := if blind then 0 else m.program(Plus(F.Block(now.pc), 2));
      pc.Clock(alignStall, alter, target);
      fetch.Clock(alignStall, flush, now.pc, data0, data1);
      align.Clock(m, stall, flush, now.data, now);
    }
  }

  /** The stages from decode to register fetch, which stall together. */
  class IssueEnd {
    const decode: Decoder
    const sched: Scheduler
    const regFetch: RegisterFetch

    constructor ()
      ensures Valid() && fresh(decode) && fresh(sched) && fresh(sched.intRegInuse) && fresh(regFetch)
                && fresh(regFetch.blockRam)
      ensures decode.out == P.NO_DECODED && sched.Registers() == P.Schedule({}, P.NO_ISSUED)
      ensures regFetch.Registers() == P.RegFetch(P.ZERO_REGS, P.NO_ISSUED, 0, 0)
    {
      decode := new Decoder();
      sched := new Scheduler();
      regFetch := new RegisterFetch();
    }

    ghost predicate Valid() { sched.Valid() && regFetch.Valid() }

    /** The stall it sends to the front end. */
    function Stall(wb: P.RegWb, stall: bool): (r: bool)
      requires Valid()
      reads decode, sched, sched.intRegInuse
      ensures r == P.ScheduleStall(sched.Registers(), decode.out, wb, stall)
    {
      stall || (decode.out.valid && !sched.AllReady(decode.out.d, wb))
    }

    method Clock(m: Machine, instr: F.Aligned, wb: P.RegWb, stall: bool, flush: bool)
      requires Valid()
      modifies decode, sched, sched.intRegInuse, regFetch, regFetch.blockRam
      ensures decode.out == old(P.NextDecoded(m, decode.out, instr,
                P.ScheduleStall(sched.Registers(), decode.out, wb, stall), flush))
      ensures sched.Registers() == old(P.NextSchedule(sched.Registers(), decode.out, wb, stall, flush))
      ensures regFetch.Registers() == old(P.NextRegFetch(regFetch.Registers(), sched.out, wb, stall, flush))
    {
      hide P.NextDecoded, P.NextSchedule, P.NextRegFetch, P.ScheduleStall;
      var id, issued := decode.out, sched.out;
      var schedStall := Stall(wb, stall);
      decode.Clock(m, schedStall, flush, instr);
      sched.Clock(id, wb, stall, flush);
      regFetch.Clock(issued, wb, stall, flush);
    }
  }

  /** Execute, memory, trap redirect and writeback. */
  class CommitEnd {
    const exec: ExecuteUnit
    const lsu: LoadStoreUnit
    const csr: CtrlStatusReg
    const wb: WritebackUnit

    constructor ()
      ensures fresh(exec) && fresh(exec.mdu) && fresh(lsu) && fresh(csr) && fresh(wb)
      ensures exec.Registers() == P.ExecuteStage(false, P.NO_ISSUED, 0, 0, M.RESET)
      ensures lsu.Registers() == P.LdstUnit(false, P.NO_ISSUED, 0, 0)
      ensures csr.Registers() == P.CtrlStatus(P.NO_ISSUED, 0)
                && wb.Registers() == P.Writeback(P.NO_REG_WB, false, false, 0, false)
    {
      exec := new ExecuteUnit();
      lsu := new LoadStoreUnit();
      csr := new CtrlStatusReg();
      wb := new WritebackUnit();
    }

    method Clock(m: Machine, rf: P.RegFetch, mem: Mem) returns (after: Mem)
      modifies exec, exec.mdu, lsu, csr, wb
      ensures exec.Registers() == old(P.NextExecute(m, exec.Registers(), rf, wb.flush))
      ensures lsu.Registers() == old(P.NextLdstUnit(m, lsu.Registers(), exec.Registers(), mem, wb.flush))
      ensures csr.Registers() == old(P.NextCtrlStatus(m, lsu.Registers(), wb.flush))
      ensures wb.Registers() == old(P.NextWriteback(wb.Registers(), csr.Registers()))
      ensures after == old(P.NextMem(m, lsu.Registers(), exec.Registers(), mem))
    {
      hide P.NextExecute, P.NextLdstUnit, P.NextMem, P.NextCtrlStatus, P.NextWriteback;
      var ex, ls, cr, flush := exec.Registers(), lsu.Registers(), csr.Registers(), wb.flush;
      exec.Clock(m, rf, flush);
      after := lsu.Clock(m, ex, mem, flush);
      csr.Clock(m, ls, flush);
      wb.Clock(cr);
    }
  }

  class Revive {
    const front: FrontEnd
    const issue: IssueEnd
    const commit: CommitEnd
    var mem: Mem

    constructor (init: Pc, mem: Mem)
      ensures Valid() && Registers() == P.Reset(init, mem)
      ensures fresh(Parts())
    {
      front := new FrontEnd(init);
      issue := new IssueEnd();
      commit := new CommitEnd();
      this.mem := mem;
    }

    ghost function Parts(): set<object> {
      {front.pc, front.fetch, front.align, issue.decode, issue.sched, issue.sched.intRegInuse, issue.regFetch,
       issue.regFetch.blockRam, commit.exec, commit.exec.mdu, commit.lsu, commit.csr, commit.wb}
    }

    ghost predicate Valid() { issue.Valid() }

    ghost function Registers(): P.Core
      requires Valid()
      reads this, Parts()
    {
      P.Core(front.Registers(), issue.decode.out, issue.sched.Registers(), issue.regFetch.Registers(),
             commit.exec.Registers(), commit.lsu.Registers(), commit.csr.Registers(), commit.wb.Registers(), mem)
    }

    /** Nine units that each make their step make the core's. */
    static lemma StepOfParts(m: Machine, c: P.Core, n: P.Core)
      requires n.fe == F.Next(m, c.fe, P.FrontInput(c))
                 && n.id == P.NextDecoded(m, c.id, c.fe.out, P.CoreStall(c), c.wb.flush)
      requires n.sch == P.NextSchedule(c.sch, c.id, c.wb.regWb, P.ExecuteStall(c.rf, c.ex), c.wb.flush)
      requires n.rf == P.NextRegFetch(c.rf, c.sch.out, c.wb.regWb, P.ExecuteStall(c.rf, c.ex), c.wb.flush)
      requires n.ex == P.NextExecute(m, c.ex, c.rf, c.wb.flush)
                 && n.ls == P.NextLdstUnit(m, c.ls, c.ex, c.mem, c.wb.flush)
      requires n.cr == P.NextCtrlStatus(m, c.ls, c.wb.flush) && n.wb == P.NextWriteback(c.wb, c.cr)
      requires n.mem == P.NextMem(m, c.ls, c.ex, c.mem)
      ensures n == P.Next(m, c)
    {
      hide F.Next, P.NextDecoded, P.NextSchedule, P.NextRegFetch, P.ScheduleStall, P.NextExecute, P.ExecuteStall,
           P.NextLdstUnit, P.NextMem, P.NextCtrlStatus, P.NextWriteback;
    }

    /** The edge of everything behind the front end. */
    method ClockBehind(m: Machine, instr: F.Aligned, stall: bool)
      requires Valid() && stall == P.ExecuteStall(issue.regFetch.Registers(), commit.exec.Registers())
      modifies this, Parts() - {front.pc, front.fetch, front.align}
      ensures var c, n := old(Registers()), Registers();
              && n.id == P.NextDecoded(m, c.id, instr, P.CoreStall(c), c.wb.flush)
              && n.sch == P.NextSchedule(c.sch, c.id, c.wb.regWb, stall, c.wb.flush)
              && n.rf == P.NextRegFetch(c.rf, c.sch.out, c.wb.regWb, stall, c.wb.flush)
              && n.ex == P.NextExecute(m, c.ex, c.rf, c.wb.flush)
                  && n.ls == P.NextLdstUnit(m, c.ls, c.ex, c.mem, c.wb.flush)
              && n.cr == P.NextCtrlStatus(m, c.ls, c.wb.flush) && n.wb == P.NextWriteback(c.wb, c.cr)
              && n.mem == P.NextMem(m, c.ls, c.ex, c.mem)
    {
      hide P.NextDecoded, P.NextSchedule, P.NextRegFetch, P.ScheduleStall, P.NextExecute, P.ExecuteStall,
           P.NextLdstUnit, P.NextMem, P.NextCtrlStatus, P.NextWriteback, Scheduler.InUse, RegisterFetch.Registers,
           MulDivUnit.Registers, FrontEnd.Registers;
      var rf, wb := issue.regFetch.Registers(), commit.wb.Registers();
      issue.Clock(m, instr, wb.regWb, stall, wb.flush);
      mem := commit.Clock(m, rf, mem);
    }

    /** One rising edge: every unit sees the wires driven by the registers before the edge. */
    method Clock(m: Machine)
      requires Valid()
      modifies this, Parts()
      ensures Registers() == P.Next(m, old(Registers()))
    {
      hide P.Next, F.Next, P.NextDecoded, P.NextSchedule, P.NextRegFetch, P.ScheduleStall, P.NextExecute,
           P.ExecuteStall, P.NextLdstUnit, P.NextMem, P.NextCtrlStatus, P.NextWriteback, Scheduler.InUse,
           RegisterFetch.Registers, MulDivUnit.Registers, CtrlStatusReg.Registers;
      ghost var c := Registers();
      var instr, rf, wb := front.align.out, issue.regFetch.Registers(), commit.wb.Registers();
      var stall := commit.exec.Stall(rf);
      var coreStall := issue.Stall(wb.regWb, stall);
      var blind := commit.exec.inExcept || commit.lsu.inExcept;
      front.Clock(m, coreStall, wb.flush, wb.alter, wb.pc, blind);
      ClockBehind(m, instr, stall);
      StepOfParts(m, c, Registers());
    }

    /** The instruction that retires in this cycle, if one does. */
    method Retire() returns (events: seq<Event>)
      requires Valid()
      ensures events == if P.Retires(Registers()) then [P.RetiredEvent(Registers())] else []
    {
      hide P.RetiredWb;
      var cr := commit.csr.Registers();
      if commit.wb.flushing || !cr.out.valid {
        return [];
      }
      var write := P.RetiredWb(cr);
      return [Event(cr.out.pc, if write.valid then RegSel(write.idx, true) else INVALID_REG, write.data)];
    }

    /** What the memory port writes in this cycle. */
    method Written(m: Machine) returns (events: seq<StoreEvent>)
      requires Valid()
      ensures events == P.StoreOfCycle(m, Registers())
    {
      hide P.PageFault, PortWrite, MulDivUnit.Registers;
      var ex, ls := commit.exec.Registers(), commit.lsu.Registers();
      if P.IsMemOp(ls, ex) && !P.PageFault(m, ls, ex) && ex.out.d.op == Op.Mem(ST) {
        return PortWrite(ex.out.d.size, ex.data, ex.dataRs2);
      }
      return [];
    }

    /** One cycle, watched at writeback and at the memory port. */
    method Cycle(m: Machine) returns (events: seq<Event>, writes: seq<StoreEvent>)
      requires Valid()
      modifies this, Parts()
      ensures Registers() == P.Next(m, old(Registers()))
      ensures events == if P.Retires(old(Registers())) then [P.RetiredEvent(old(Registers()))] else []
      ensures writes == P.StoreOfCycle(m, old(Registers()))
    {
      hide P.Next, P.Retires, P.RetiredEvent, P.StoreOfCycle, Revive.Registers;
      events := Retire();
      writes := Written(m);
      Clock(m);
    }

    /** Runs the core for some cycles and collects what writeback retires and the memory port
        writes: exactly a run of the program one instruction at a time, at least one instruction
        every 46 cycles, with the writes of at most two more instructions. */
    method Simulate(m: Machine, init: Pc, start: Mem, cycles: nat)
      returns (retired: seq<Event>, stores: seq<StoreEvent>)
      requires Valid() && Registers() == P.Reset(init, start)
      modifies this, Parts()
      ensures Registers() == P.Run(m, P.Reset(init, start), cycles)
      ensures retired == Trace(m, Arch(init, P.ZERO_REGS, start), |retired|) && cycles <= 46 * |retired| + 45
      ensures WritesUpTo(m, Arch(init, P.ZERO_REGS, start), |retired|, stores)
    {
      hide P.Next, P.Reset, P.Run, P.Retired, P.Stores, P.Retires, P.RetiredEvent, P.StoreOfCycle, Revive.Registers,
           Trace, WritesUpTo;
      retired, stores := [], [];
      ghost var c0 := P.Reset(init, start);
      NothingRun(m, c0);
      for t := 0 to cycles
        invariant Registers() == P.Run(m, c0, t) && retired == P.Retired(m, c0, t) && stores == P.Stores(m, c0, t)
      {
        RunStep(m, c0, t);
        var events, writes := Cycle(m);
        retired := retired + events;
        stores := stores + writes;
      }
      RetiredIsExecution(m, init, start, cycles);
    }
  }

  /** The writes of the first instructions, at most two behind the n-th. */
  ghost predicate WritesUpTo(m: Machine, a0: Arch, n: nat, stores: seq<StoreEvent>) {
    exists k :: n <= k <= n + 2 && stores == StoreLog(m, a0, k)
  }

  lemma NothingRun(m: Machine, c: P.Core)
    ensures P.Run(m, c, 0) == c && P.Retired(m, c, 0) == [] && P.Stores(m, c, 0) == []
  {
  }

  lemma RunStep(m: Machine, c: P.Core, t: nat)
    ensures var before := P.Run(m, c, t);
            && P.Run(m, c, t + 1) == P.Next(m, before)
            && P.Retired(m, c, t + 1) ==
                P.Retired(m, c, t) + (if P.Retires(before) then [P.RetiredEvent(before)] else [])
            && P.Stores(m, c, t + 1) == P.Stores(m, c, t) + P.StoreOfCycle(m, before)
  {
    hide P.Next, P.Retires, P.RetiredEvent, P.StoreOfCycle;
  }

  lemma RetiredIsExecution(m: Machine, init: Pc, mem: Mem, t: nat)
    ensures var a0, r := Arch(init, P.ZERO_REGS, mem), P.Retired(m, P.Reset(init, mem), t);
            && r == Trace(m, a0, |r|) && t <= 46 * |r| + 45
            && WritesUpTo(m, a0, |r|, P.Stores(m, P.Reset(init, mem), t))
  {
    hide *;
    RetiredIsTrace(m, init, mem, t);
    RetiredEnough(m, init, mem, t);
  }

  lemma RetiredIsTrace(m: Machine, init: Pc, mem: Mem, t: nat)
    ensures var a0, r := Arch(init, P.ZERO_REGS, mem), P.Retired(m, P.Reset(init, mem), t);
            && r == Trace(m, a0, |r|)
            && WritesUpTo(m, a0, |r|, P.Stores(m, P.Reset(init, mem), t))
  {
    hide P.Reset, P.Run, P.Next, P.Retired, P.Stores, P.RegView, Trace, StoreLog, Execution, R.MemoryAfter;
    R.CoreRefinesExecution(m, init, mem, t);
  }

  lemma RetiredEnough(m: Machine, init: Pc, mem: Mem, t: nat)
    ensures t <= 46 * |P.Retired(m, P.Reset(init, mem), t)| + 45
  {
    hide *;
    var q, r := t / 46, t % 46;
    Euclid(t, 46);
    Cycles(m, init, mem, q, r);
  }

  lemma Cycles(m: Machine, init: Pc, mem: Mem, q: nat, r: nat)
    ensures |P.Retired(m, P.Reset(init, mem), q * 46 + r)| >= q
  {
    hide P.Reset, P.Run, P.Next, P.Retired;
    L.EnoughCycles(m, init, mem, q);
    L.CountGrows(m, P.Reset(init, mem), 46 * q, r);
  }
}
