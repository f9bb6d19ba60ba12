/** The clocked core refines one-instruction-at-a-time execution.

    The proof keeps one architectural state A, the one reached by the retired instructions, and
    walks the pipe from its oldest stage to its youngest. At each stage a cursor holds the
    architectural state just before the instruction standing there, and whether that instruction is
    still on the path the program takes: nothing behind a redirecting instruction is. */
module Refinement {
  import opened Words
  import opened Isa
  import opened Pipeline
  import F = Frontend
  import M = Mdu

  // ---------------------------------------------------------------------------
  // Cursors
  // ---------------------------------------------------------------------------

  predicate Traps(m: Machine, a: Arch) {
    var d := InstrAt(m, a.pc);
    d.op.Mem? && MemTraps(m, d, Address(d, Operand1(d, a.regs, a.pc)))
  }

  predicate TakesBranch(m: Machine, a: Arch) {
    var d := InstrAt(m, a.pc);
    d.op.Bru? && Taken(d, Operand1(d, a.regs, a.pc), Operand2(d, a.regs, a.pc))
  }

  /** The instruction at a.pc makes the core fetch anew behind it. */
  predicate Redirects(m: Machine, a: Arch) {
    InstrAt(m, a.pc).op == Alu(FENCE) || TakesBranch(m, a) || Traps(m, a)
  }

  datatype Cursor = Cursor(a: Arch, on: bool)

  /** Past a slot: a bubble or a wrong-path instruction changes nothing. */
  ghost function Past(m: Machine, k: Cursor, valid: bool): Cursor {
    if k.on && valid then Cursor(Isa.Execute(m, k.a), !Redirects(m, k.a)) else k
  }

  ghost function AtCr(c: Core, a: Arch): Cursor { Cursor(a, !c.wb.flushing) }
  ghost function AtLs(m: Machine, c: Core, a: Arch): Cursor { Past(m, AtCr(c, a), c.cr.out.valid) }
  ghost function AtEx(m: Machine, c: Core, a: Arch): Cursor { Past(m, AtLs(m, c, a), c.ls.out.valid) }
  ghost function AtRf(m: Machine, c: Core, a: Arch): Cursor { Past(m, AtEx(m, c, a), c.ex.out.valid) }
  ghost function AtSch(m: Machine, c: Core, a: Arch): Cursor { Past(m, AtRf(m, c, a), c.rf.out.valid) }
  ghost function AtId(m: Machine, c: Core, a: Arch): Cursor { Past(m, AtSch(m, c, a), c.sch.out.valid) }
  ghost function AtFe(m: Machine, c: Core, a: Arch): Cursor { Past(m, AtId(m, c, a), c.id.valid) }
  ghost function AtFetch(m: Machine, c: Core, a: Arch): Cursor { Past(m, AtFe(m, c, a), c.fe.out.valid) }

  // ---------------------------------------------------------------------------
  // What each stage holds for an instruction on the path
  // ---------------------------------------------------------------------------

  /** The value the instruction computes: ALU or multiplier result, loaded word, branch target. */
  ghost function Outcome(m: Machine, a: Arch): Word {
    var d := InstrAt(m, a.pc);
    var x, y := Operand1(d, a.regs, a.pc), Operand2(d, a.regs, a.pc);
    match d.op
    case Alu(op) => if op == FENCE then 0 else m.alu(op, x, y)
    case Bru(op) => if Taken(d, x, y) then Target(d, a.pc, x) else Even(NextPc(a.pc, d.half))
    case Mul(op) => M.Rv32M(op, x, y)
    case Mem(op) => if op == ST then 0 else Load(a.mem, op, d.size, Address(d, x))
  }

  ghost predicate Holds(m: Machine, k: Cursor, pc: Word, d: Decode) {
    pc == k.a.pc && d == InstrAt(m, k.a.pc)
  }

  ghost function ExpectedExcept(m: Machine, a: Arch): Except {
    if InstrAt(m, a.pc).op == Alu(FENCE) then Flush else if TakesBranch(m, a) then Mispred else NoExcept
  }

  /** The exception a trapping access raises: misalignment before page fault, a load apart from a store. */
  ghost function FaultOf(m: Machine, a: Arch): Except {
    var d := InstrAt(m, a.pc);
    var store := d.op == Mem(ST);
    if Misaligned(d.size, Address(d, Operand1(d, a.regs, a.pc))) then (if store then StoreMisalign else LoadMisalign)
    else if store then StorePageFault else LoadPageFault
  }

  ghost predicate CrOk(m: Machine, k: Cursor, s: CtrlStatus) {
    k.on && s.out.valid ==>
      if Traps(m, k.a) then
        s.out.pc == k.a.pc && s.out.except == MispredNoTrace && !WritesReg(s.out.d) && s.data == m.trapVector
      else
        Holds(m, k, s.out.pc, s.out.d) && s.out.except == ExpectedExcept(m, k.a) &&
        (s.out.d.op != Mem(ST) ==> s.data == Outcome(m, k.a))
  }

  ghost predicate LsOk(m: Machine, k: Cursor, s: LdstUnit) {
    k.on && s.out.valid ==>
      && Holds(m, k, s.out.pc, s.out.d)
      && (Traps(m, k.a) ==> s.out.except == FaultOf(m, k.a))
      && (!Traps(m, k.a) ==> s.out.except == ExpectedExcept(m, k.a) &&
                             (s.out.d.op != Mem(ST) ==> s.data == Outcome(m, k.a)))
  }

  ghost predicate ExOk(m: Machine, k: Cursor, s: ExecuteStage) {
    k.on && s.out.valid ==>
      && Holds(m, k, s.out.pc, s.out.d)
      && (if s.out.d.op.Mem? then
            var addr := Address(s.out.d, Operand1(s.out.d, k.a.regs, k.a.pc));
            && s.data == addr
            && (Misaligned(s.out.d.size, addr) ==> s.out.except == FaultOf(m, k.a))
            && (!Misaligned(s.out.d.size, addr) ==> s.out.except == NoExcept)
            && (s.out.d.op == Mem(ST) ==> s.dataRs2 == k.a.regs[s.out.d.rs2.idx])
          else
            s.out.except == ExpectedExcept(m, k.a) && s.data == Outcome(m, k.a))
  }

  ghost predicate RfOk(m: Machine, k: Cursor, s: RegFetch) {
    k.on && s.out.valid ==>
      && Holds(m, k, s.out.pc, s.out.d)
      && (s.out.d.rs1.valid ==> s.data1 == k.a.regs[s.out.d.rs1.idx])
      && (s.out.d.rs2.valid ==> s.data2 == k.a.regs[s.out.d.rs2.idx])
  }

  ghost predicate SchOk(m: Machine, k: Cursor, s: Schedule) {
    k.on && s.out.valid ==> Holds(m, k, s.out.pc, s.out.d)
  }

  ghost predicate IdOk(m: Machine, k: Cursor, s: Decoded) {
    k.on && s.valid ==> Holds(m, k, s.pc, s.d)
  }

  ghost predicate FeOk(m: Machine, k: Cursor, s: F.State) {
    k.on && s.out.valid ==> s.out.parcel == ParcelAt(m, k.a.pc)
  }

  ghost predicate FetchOk(m: Machine, k: Cursor, s: F.State) {
    k.on ==> F.InStream(m, s) && F.Position(s) == k.a.pc
  }

  // ---------------------------------------------------------------------------
  // Conditions that hold for every slot, on the path or not
  // ---------------------------------------------------------------------------

  /** Registers a slot may still write. */
  ghost function Writers(i: Issued): set<RegIdx> {
    if i.valid && i.d.rd.valid && i.d.rd.idx != 0 then {i.d.rd.idx} else {}
  }

  ghost function WbWriter(w: RegWb): set<RegIdx> { if w.valid then {w.idx} else {} }

  ghost function BehindCr(c: Core): set<RegIdx> { Writers(c.cr.out) + WbWriter(c.wb.regWb) }
  ghost function BehindLs(c: Core): set<RegIdx> { Writers(c.ls.out) + BehindCr(c) }
  ghost function BehindEx(c: Core): set<RegIdx> { Writers(c.ex.out) + BehindLs(c) }
  ghost function BehindRf(c: Core): set<RegIdx> { Writers(c.rf.out) + BehindEx(c) }
  ghost function InFlight(c: Core): set<RegIdx> { Writers(c.sch.out) + BehindRf(c) }

  /** At most one writer of a register is in flight, and its bit is set. */
  ghost predicate Scoreboard(c: Core) {
    && Writers(c.cr.out) !! WbWriter(c.wb.regWb)
    && Writers(c.ls.out) !! BehindCr(c)
    && Writers(c.ex.out) !! BehindLs(c)
    && Writers(c.rf.out) !! BehindEx(c)
    && Writers(c.sch.out) !! BehindRf(c)
    && InFlight(c) <= c.sch.inUse
  }

  /** An issued instruction waits for no older writer of its sources. */
  ghost predicate SourcesSettled(c: Core) {
    c.sch.out.valid ==>
      && (c.sch.out.d.rs1.valid ==> c.sch.out.d.rs1.idx !in BehindRf(c))
      && (c.sch.out.d.rs2.valid ==> c.sch.out.d.rs2.idx !in BehindRf(c))
  }

  ghost predicate MduOk(c: Core) {
    if MduEnable(c.rf)
    then M.Idle(c.ex.mdu) || M.Working(c.ex.mdu, c.rf.out.d.op.mul, Source1(c.rf), Source2(c.rf))
    else M.Idle(c.ex.mdu)
  }

  ghost predicate Control(m: Machine, c: Core, a: Arch) {
    && c.wb.flush == c.wb.alter == c.wb.flushing
    && (c.wb.flushing ==> c.wb.pc == a.pc)
    && (c.wb.regWb.valid ==> c.wb.regWb.idx != 0)
    && (c.ls.inExcept <==> !AtEx(m, c, a).on)
    && (c.ex.inExcept ==> !AtRf(m, c, a).on)
    && c.rf.out.except == NoExcept && c.sch.out.except == NoExcept
  }

  ghost predicate Stages(m: Machine, c: Core, a: Arch) {
    && CrOk(m, AtCr(c, a), c.cr) && LsOk(m, AtLs(m, c, a), c.ls) && ExOk(m, AtEx(m, c, a), c.ex)
    && RfOk(m, AtRf(m, c, a), c.rf) && SchOk(m, AtSch(m, c, a), c.sch) && IdOk(m, AtId(m, c, a), c.id)
    && FeOk(m, AtFe(m, c, a), c.fe) && FetchOk(m, AtFetch(m, c, a), c.fe)
  }

  /** The simulation relation between the core and the retired architectural state. */
  ghost predicate Simulates(m: Machine, c: Core, a: Arch) {
    && Control(m, c, a) && Stages(m, c, a) && Scoreboard(c) && SourcesSettled(c) && MduOk(c)
    && RegView(c) == a.regs
    && c.mem == AtEx(m, c, a).a.mem
  }

  /** The architectural state after this cycle's retirement. */
  ghost function NextArch(m: Machine, c: Core, a: Arch): Arch {
    if Retires(c) then Isa.Execute(m, a) else a
  }

  // ---------------------------------------------------------------------------
  // Single instructions
  // ---------------------------------------------------------------------------

  lemma ExecuteRegs(m: Machine, a: Arch)
    ensures var d := InstrAt(m, a.pc);
            Isa.Execute(m, a).regs ==
              if Traps(m, a) || !WritesReg(d) then a.regs
              else a.regs[d.rd.idx := if d.rdSel == RdRegAndPc then NextPc(a.pc, d.half) else Outcome(m, a)]
  {
  }

  lemma ExecutePc(m: Machine, a: Arch)
    ensures var d := InstrAt(m, a.pc);
            Isa.Execute(m, a).pc ==
              if Traps(m, a) then m.trapVector
              else if TakesBranch(m, a) then Outcome(m, a)
              else NextPc(a.pc, d.half)
  {
  }

  lemma ExecuteMem(m: Machine, a: Arch)
    ensures var d := InstrAt(m, a.pc);
            Isa.Execute(m, a).mem ==
              if d.op == Mem(ST) && !Traps(m, a)
              then Store(a.mem, d.size, Address(d, Operand1(d, a.regs, a.pc)), a.regs[d.rs2.idx])
              else a.mem
  {
  }

  /** What writeback does with an instruction on the path is what the instruction does. */
  lemma RetireIsExecute(m: Machine, c: Core, a: Arch)
    requires CrOk(m, Cursor(a, true), c.cr) && c.cr.out.valid && !c.wb.flushing
    ensures WriteRam(a.regs, RetiredWb(c.cr)) == Isa.Execute(m, a).regs
    ensures RetiredEvent(c) == EventOf(m, a)
    ensures NextWriteback(c.wb, c.cr).flushing == Redirects(m, a)
    ensures Redirects(m, a) ==> NextWriteback(c.wb, c.cr).pc == Isa.Execute(m, a).pc
  {
    ExecuteRegs(m, a);
    ExecutePc(m, a);
    hide Isa.Execute, Outcome, Taken, MemTraps;
  }

  // ---------------------------------------------------------------------------
  // Without a flush every cursor moves one stage up
  // ---------------------------------------------------------------------------

  lemma MoveCr(m: Machine, c: Core, a: Arch)
    requires Simulates(m, c, a) && !c.wb.flush
    ensures AtCr(Next(m, c), NextArch(m, c, a)) == AtLs(m, c, a)
  {
    if Retires(c) {
      RetireIsExecute(m, c, a);
    }
    hide Isa.Execute, Redirects;
  }

  lemma MoveLs(m: Machine, c: Core, a: Arch)
    requires Simulates(m, c, a) && !c.wb.flush
    ensures AtLs(m, Next(m, c), NextArch(m, c, a)) == AtEx(m, c, a)
  {
    MoveCr(m, c, a);
    hide Past, NextArch;
  }

  lemma MoveEx(m: Machine, c: Core, a: Arch)
    requires Simulates(m, c, a) && !c.wb.flush
    ensures AtEx(m, Next(m, c), NextArch(m, c, a)) == AtRf(m, c, a)
  {
    MoveLs(m, c, a);
    hide Past, NextArch, AtLs;
  }

  /** An instruction leaves execute, unless the multiplier holds it; a squashed one was off the path. */
  lemma MoveRf(m: Machine, c: Core, a: Arch)
    requires Simulates(m, c, a) && !c.wb.flush
    ensures AtRf(m, Next(m, c), NextArch(m, c, a)) ==
              if ExecuteStall(c.rf, c.ex) then AtRf(m, c, a) else AtSch(m, c, a)
  {
    MoveEx(m, c, a);
    hide Isa.Execute, Redirects, NextArch, AtEx, Stages, Scoreboard, SourcesSettled, MduOk;
  }

  lemma MoveSch(m: Machine, c: Core, a: Arch)
    requires Simulates(m, c, a) && !c.wb.flush
    ensures AtSch(m, Next(m, c), NextArch(m, c, a)) ==
              if ExecuteStall(c.rf, c.ex) then AtSch(m, c, a) else AtId(m, c, a)
  {
    MoveRf(m, c, a);
    hide Past, NextArch, AtRf, Simulates;
  }

  lemma MoveId(m: Machine, c: Core, a: Arch)
    requires Simulates(m, c, a) && !c.wb.flush
    ensures AtId(m, Next(m, c), NextArch(m, c, a)) == if CoreStall(c) then AtId(m, c, a) else AtFe(m, c, a)
  {
    MoveSch(m, c, a);
    hide Isa.Execute, Redirects, NextArch, AtSch, Simulates, AllReady;
  }

  lemma MoveFe(m: Machine, c: Core, a: Arch)
    requires Simulates(m, c, a) && !c.wb.flush
    ensures AtFe(m, Next(m, c), NextArch(m, c, a)) == if CoreStall(c) then AtFe(m, c, a) else AtFetch(m, c, a)
  {
    MoveId(m, c, a);
    hide Past, NextArch, AtId, Simulates, CoreStall;
  }

  // ---------------------------------------------------------------------------
  // Stage by stage
  // ---------------------------------------------------------------------------

  lemma StepCr(m: Machine, c: Core, a: Arch)
    requires Simulates(m, c, a) && !c.wb.flush
    ensures CrOk(m, AtCr(Next(m, c), NextArch(m, c, a)), Next(m, c).cr)
  {
    MoveCr(m, c, a);
    assert LsOk(m, AtLs(m, c, a), c.ls);
    hide AtLs, AtCr, NextArch, Simulates, Traps, Outcome, InstrAt, TakesBranch, Redirects;
  }

  lemma StepLs(m: Machine, c: Core, a: Arch)
    requires Simulates(m, c, a) && !c.wb.flush
    ensures LsOk(m, AtLs(m, Next(m, c), NextArch(m, c, a)), Next(m, c).ls)
  {
    MoveLs(m, c, a);
    assert ExOk(m, AtEx(m, c, a), c.ex) && (c.ls.inExcept <==> !AtEx(m, c, a).on);
    assert c.mem == AtEx(m, c, a).a.mem;
    hide AtLs, AtEx, NextArch, Simulates, InstrAt, Load, Store;
  }

  lemma StepMem(m: Machine, c: Core, a: Arch)
    requires Simulates(m, c, a) && !c.wb.flush
    ensures Next(m, c).mem == AtEx(m, Next(m, c), NextArch(m, c, a)).a.mem
  {
    MoveEx(m, c, a);
    var k := AtEx(m, c, a);
    assert ExOk(m, k, c.ex) && (c.ls.inExcept <==> !k.on) && c.mem == k.a.mem;
    ExecuteMem(m, k.a);
    hide AtEx, NextArch, Simulates, Isa.Execute, InstrAt, Store;
  }

  /** The source wires carry the operands the instruction names. */
  lemma SourcesAreOperands(m: Machine, k: Cursor, rf: RegFetch)
    requires RfOk(m, k, rf) && k.on && rf.out.valid
    ensures Source1(rf) == Operand1(rf.out.d, k.a.regs, k.a.pc)
    ensures Source2(rf) == Operand2(rf.out.d, k.a.regs, k.a.pc)
  {
    hide InstrAt;
  }

  /** What execute computes for an instruction on the path it does not squash. */
  lemma ExecuteComputes(m: Machine, k: Cursor, rf: RegFetch, ex: ExecuteStage)
    requires RfOk(m, k, rf) && k.on && rf.out.valid && rf.out.except == NoExcept && !ex.inExcept
    requires ex.mdu.outValid && rf.out.d.op.Mul? ==>
               ex.mdu.outDest == M.Rv32M(rf.out.d.op.mul, Source1(rf), Source2(rf))
    ensures ExOk(m, k, NextExecute(m, ex, rf, false))
  {
    SourcesAreOperands(m, k, rf);
    hide InstrAt, M.Next, M.Rv32M, Load, Source1, Source2, Operand1, Operand2, Taken, Address, Misaligned, Target;
    match rf.out.d.op
    case Alu(op) =>
    case Bru(op) =>
    case Mul(op) =>
    case Mem(op) =>
  }

  lemma StepEx(m: Machine, c: Core, a: Arch)
    requires Simulates(m, c, a) && !c.wb.flush
    ensures ExOk(m, AtEx(m, Next(m, c), NextArch(m, c, a)), Next(m, c).ex)
  {
    MoveEx(m, c, a);
    var k := AtRf(m, c, a);
    if k.on && c.rf.out.valid {
      assert c.ex.mdu.outValid && c.rf.out.d.op.Mul? ==>
        c.ex.mdu.outDest == M.Rv32M(c.rf.out.d.op.mul, Source1(c.rf), Source2(c.rf));
      ExecuteComputes(m, k, c.rf, c.ex);
    }
    hide AtEx, AtRf, NextArch, Simulates, InstrAt, M.Next, M.Rv32M, M.Working, Load, Traps, Outcome, TakesBranch;
  }

  /** A slot that is no writer of r leaves r alone. */
  lemma PastKeepsReg(m: Machine, k: Cursor, i: Issued, r: RegIdx)
    requires k.on && i.valid && !Traps(m, k.a) ==> i.d == InstrAt(m, k.a.pc)
    requires r !in Writers(i)
    ensures Past(m, k, i.valid).a.regs[r] == k.a.regs[r]
  {
    ExecuteRegs(m, k.a);
    hide Isa.Execute, InstrAt, Outcome, Redirects, Traps;
  }

  /** A register with no writer in flight past the register file reads its current value there. */
  lemma SettledReads(m: Machine, c: Core, a: Arch, r: RegIdx)
    requires Simulates(m, c, a) && r !in BehindRf(c)
    ensures c.rf.ram[r] == AtSch(m, c, a).a.regs[r]
  {
    PastKeepsReg(m, AtCr(c, a), c.cr.out, r) by { hide InstrAt, Traps, Outcome; }
    PastKeepsReg(m, AtLs(m, c, a), c.ls.out, r) by { hide InstrAt, Traps, Outcome; }
    PastKeepsReg(m, AtEx(m, c, a), c.ex.out, r) by { hide InstrAt, Traps, Outcome; }
    PastKeepsReg(m, AtRf(m, c, a), c.rf.out, r) by { hide InstrAt, Traps, Outcome; }
    hide Stages, Control, Past, Traps, InstrAt;
  }

  lemma StepRf(m: Machine, c: Core, a: Arch)
    requires Simulates(m, c, a) && !c.wb.flush
    ensures RfOk(m, AtRf(m, Next(m, c), NextArch(m, c, a)), Next(m, c).rf)
  {
    MoveRf(m, c, a);
    var i := c.sch.out;
    if !ExecuteStall(c.rf, c.ex) && i.valid {
      if i.d.rs1.valid { SettledReads(m, c, a, i.d.rs1.idx); }
      if i.d.rs2.valid { SettledReads(m, c, a, i.d.rs2.idx); }
    }
    assert SchOk(m, AtSch(m, c, a), c.sch) && RfOk(m, AtRf(m, c, a), c.rf);
    hide AtRf, AtSch, NextArch, Simulates, InstrAt, ExecuteStall;
  }

  lemma StepSch(m: Machine, c: Core, a: Arch)
    requires Simulates(m, c, a) && !c.wb.flush
    ensures SchOk(m, AtSch(m, Next(m, c), NextArch(m, c, a)), Next(m, c).sch)
  {
    MoveSch(m, c, a);
    assert SchOk(m, AtSch(m, c, a), c.sch) && IdOk(m, AtId(m, c, a), c.id);
    hide AtSch, AtId, NextArch, Simulates, InstrAt, ExecuteStall, AllReady;
  }

  lemma StepId(m: Machine, c: Core, a: Arch)
    requires Simulates(m, c, a) && !c.wb.flush
    ensures IdOk(m, AtId(m, Next(m, c), NextArch(m, c, a)), Next(m, c).id)
  {
    MoveId(m, c, a);
    assert IdOk(m, AtId(m, c, a), c.id) && FeOk(m, AtFe(m, c, a), c.fe);
    hide AtId, AtFe, NextArch, Simulates, CoreStall, ParcelAt, DecodeParcel;
  }

  /** On the path, what follows a non-redirecting instruction is the next one in the text. */
  lemma FallThrough(m: Machine, a: Arch)
    requires !Redirects(m, a)
    ensures Isa.Execute(m, a).pc == F.After(ParcelAt(m, a.pc))
  {
    ExecutePc(m, a);
    hide Isa.Execute, Traps, TakesBranch, Outcome;
  }

  lemma OnUntilFetch(m: Machine, c: Core, a: Arch)
    requires AtFetch(m, c, a).on
    ensures AtFe(m, c, a).on && AtRf(m, c, a).on && AtEx(m, c, a).on
  {
    hide Isa.Execute, Redirects;
  }

  lemma StepFe(m: Machine, c: Core, a: Arch)
    requires Simulates(m, c, a) && !c.wb.flush
    ensures FeOk(m, AtFe(m, Next(m, c), NextArch(m, c, a)), Next(m, c).fe)
    ensures FetchOk(m, AtFetch(m, Next(m, c), NextArch(m, c, a)), Next(m, c).fe)
  {
    MoveFe(m, c, a);
    var k, i := AtFetch(m, c, a), FrontInput(c);
    assert FeOk(m, AtFe(m, c, a), c.fe) && FetchOk(m, k, c.fe);
    if i.stall {
      F.StalledStep(m, c.fe, i);
    } else if k.on {
      OnUntilFetch(m, c, a);
      F.StreamStep(m, c.fe, i);
      if !Redirects(m, k.a) { FallThrough(m, k.a); }
    }
    hide AtFe, NextArch, Simulates, CoreStall, ParcelAt, F.InStream, F.Position, F.Next, F.After, Isa.Execute,
         Redirects;
  }

  lemma StepRegs(m: Machine, c: Core, a: Arch)
    requires Simulates(m, c, a)
    ensures RegView(Next(m, c)) == NextArch(m, c, a).regs
  {
    if Retires(c) {
      RetireIsExecute(m, c, a);
    }
    hide Isa.Execute, RetiredWb;
  }

  lemma StepMdu(m: Machine, c: Core, a: Arch)
    requires Simulates(m, c, a)
    ensures MduOk(Next(m, c))
  {
    var i := MduInput(c.rf, c.wb.flush);
    assert MduOk(c);
    hide Simulates, M.Rv32M;
    if MduEnable(c.rf) && !c.wb.flush {
      if M.Idle(c.ex.mdu) { M.NewJobStarts(c.ex.mdu, i); } else { M.HeldJobStep(c.ex.mdu, i); }
    }
    hide M.Working;
  }

  // ---------------------------------------------------------------------------
  // Scoreboard
  // ---------------------------------------------------------------------------

  lemma StepWriters(m: Machine, c: Core)
    requires !c.wb.flush && !c.wb.flushing
    ensures var c' := Next(m, c);
            && WbWriter(c'.wb.regWb) <= Writers(c.cr.out)
            && Writers(c'.cr.out) <= Writers(c.ls.out)
            && Writers(c'.ls.out) == Writers(c.ex.out)
            && (ExecuteStall(c.rf, c.ex) ==>
                  Writers(c'.ex.out) == {} && c'.rf.out == c.rf.out && c'.sch.out == c.sch.out)
            && (!ExecuteStall(c.rf, c.ex) ==> Writers(c'.ex.out) <= Writers(c.rf.out) && c'.rf.out == c.sch.out)
  {
  }

  /** Scoreboard on the bare writer sets, youngest slot first. */
  ghost predicate Disjoint(sch: set<RegIdx>, rf: set<RegIdx>, ex: set<RegIdx>, ls: set<RegIdx>,
                           cr: set<RegIdx>, wb: set<RegIdx>, inUse: set<RegIdx>) {
    && cr !! wb && ls !! cr + wb && ex !! ls + (cr + wb) && rf !! ex + (ls + (cr + wb))
    && sch !! rf + (ex + (ls + (cr + wb)))
    && sch + (rf + (ex + (ls + (cr + wb)))) <= inUse
  }

  lemma ScoreboardIsDisjoint(c: Core)
    ensures Scoreboard(c) <==> Disjoint(Writers(c.sch.out), Writers(c.rf.out), Writers(c.ex.out), Writers(c.ls.out),
                                        Writers(c.cr.out), WbWriter(c.wb.regWb), c.sch.inUse)
  {
    hide Writers, WbWriter;
  }

  /** Execute stalls: only the older half moves on, and the retired writer's bit is cleared. */
  lemma DisjointStalled(sch: set<RegIdx>, rf: set<RegIdx>, ex: set<RegIdx>, ls: set<RegIdx>, cr: set<RegIdx>,
                        wb: set<RegIdx>, inUse: set<RegIdx>, cr': set<RegIdx>, wb': set<RegIdx>)
    requires Disjoint(sch, rf, ex, ls, cr, wb, inUse) && cr' <= ls && wb' <= cr
    ensures Disjoint(sch, rf, {}, ex, cr', wb', inUse - wb)
  {
  }

  /** Everything moves, and an instruction with destination set rd enters behind a free register. */
  lemma DisjointMoved(sch: set<RegIdx>, rf: set<RegIdx>, ex: set<RegIdx>, ls: set<RegIdx>, cr: set<RegIdx>,
                      wb: set<RegIdx>, inUse: set<RegIdx>, rd: set<RegIdx>, ex': set<RegIdx>, cr': set<RegIdx>,
                      wb': set<RegIdx>)
    requires Disjoint(sch, rf, ex, ls, cr, wb, inUse) && ex' <= rf && cr' <= ls && wb' <= cr
    requires rd !! inUse - wb
    ensures Disjoint(rd, sch, ex', ex, cr', wb', (inUse - wb) + rd)
  {
  }

  /** The bits after an edge: the retired register is freed, unless the issued one takes it over. */
  lemma InUseAfter(s: Schedule, id: Decoded, wb: RegWb, stall: bool)
    requires wb.valid ==> wb.idx != 0
    ensures var rd := if CanIssue(s, id, wb, stall) && id.d.rd.valid && id.d.rd.idx != 0 then {id.d.rd.idx} else {};
            && NextInUse(s, id, wb, stall) == (s.inUse - WbWriter(wb)) + rd
            && rd !! s.inUse - WbWriter(wb)
  {
  }

  lemma StepScoreboard(m: Machine, c: Core)
    requires Scoreboard(c) && !c.wb.flush && !c.wb.flushing
    requires c.wb.regWb.valid ==> c.wb.regWb.idx != 0
    ensures Scoreboard(Next(m, c))
  {
    var c', stall := Next(m, c), ExecuteStall(c.rf, c.ex);
    StepWriters(m, c);
    InUseAfter(c.sch, c.id, c.wb.regWb, stall);
    ScoreboardIsDisjoint(c);
    ScoreboardIsDisjoint(c');
    assert c'.sch.inUse == NextInUse(c.sch, c.id, c.wb.regWb, stall);
    var rd := if CanIssue(c.sch, c.id, c.wb.regWb, stall) && c.id.d.rd.valid && c.id.d.rd.idx != 0 then {c.id.d.rd.idx}
        else {};
    assert !stall ==> Writers(c'.sch.out) == rd;
    assert stall ==> rd == {};
    hide Next, Writers, ExecuteStall, WbWriter, Scoreboard, Disjoint, NextInUse, CanIssue;
    if stall {
      DisjointStalled(Writers(c.sch.out), Writers(c.rf.out), Writers(c.ex.out), Writers(c.ls.out), Writers(c.cr.out),
                      WbWriter(c.wb.regWb), c.sch.inUse, Writers(c'.cr.out), WbWriter(c'.wb.regWb));
      assert c'.sch.inUse == c.sch.inUse - WbWriter(c.wb.regWb);
    } else {
      DisjointMoved(Writers(c.sch.out), Writers(c.rf.out), Writers(c.ex.out), Writers(c.ls.out), Writers(c.cr.out),
                    WbWriter(c.wb.regWb), c.sch.inUse, rd, Writers(c'.ex.out), Writers(c'.cr.out),
                        WbWriter(c'.wb.regWb));
    }
  }

  lemma BehindShrinks(m: Machine, c: Core)
    requires Scoreboard(c) && !c.wb.flush && !c.wb.flushing
    ensures var c' := Next(m, c);
            && (ExecuteStall(c.rf, c.ex) ==> BehindRf(c') <= BehindRf(c))
            && (!ExecuteStall(c.rf, c.ex) ==> BehindRf(c') <= InFlight(c) - WbWriter(c.wb.regWb))
  {
    StepWriters(m, c);
    hide Next, Writers, ExecuteStall, WbWriter;
  }

  lemma StepSources(m: Machine, c: Core)
    requires Scoreboard(c) && SourcesSettled(c) && !c.wb.flush && !c.wb.flushing
    requires 0 !in InFlight(c)
    ensures SourcesSettled(Next(m, c))
  {
    BehindShrinks(m, c);
    var c' := Next(m, c);
    if ExecuteStall(c.rf, c.ex) {
      assert c'.sch.out == c.sch.out;
    } else {
      assert c'.sch.out == Issued(c.id.pc, c.id.d, NoExcept, CanIssue(c.sch, c.id, c.wb.regWb, false));
      assert InFlight(c) <= c.sch.inUse;
    }
    hide Next, ExecuteStall, BehindRf, InFlight, Scoreboard;
  }

  lemma NoZeroInFlight(c: Core)
    requires c.wb.regWb.valid ==> c.wb.regWb.idx != 0
    ensures 0 !in InFlight(c)
  {
  }

  // ---------------------------------------------------------------------------
  // Control
  // ---------------------------------------------------------------------------

  /** At the memory stage an instruction on the path raises an exception exactly when it redirects. */
  lemma MemStageExcept(m: Machine, k: Cursor, ls: LdstUnit, ex: ExecuteStage)
    requires ExOk(m, k, ex) && k.on && ex.out.valid && !ls.inExcept
    ensures ex.out.except != NoExcept || PageFault(m, ls, ex) <==> Redirects(m, k.a)
  {
    hide InstrAt, Outcome, Taken, Misaligned, Address, Operand1;
  }

  /** At execute, one that raises an exception redirects. */
  lemma ExecuteStageExcept(m: Machine, k: Cursor, ex: ExecuteStage)
    requires ExOk(m, k, ex) && k.on && ex.out.valid && ex.out.except != NoExcept
    ensures Redirects(m, k.a)
  {
    hide InstrAt, Outcome, Taken, Misaligned, Address, Operand1;
  }

  lemma StepLsControl(m: Machine, c: Core, a: Arch)
    requires Simulates(m, c, a) && !c.wb.flush
    ensures Next(m, c).ls.inExcept <==> !AtEx(m, Next(m, c), NextArch(m, c, a)).on
  {
    MoveEx(m, c, a);
    var k := AtEx(m, c, a);
    assert c.ls.inExcept <==> !k.on;
    if k.on && c.ex.out.valid {
      MemStageExcept(m, k, c.ls, c.ex);
    }
    hide AtEx, Simulates, NextArch, PageFault, Redirects, Isa.Execute;
  }

  lemma StepExControl(m: Machine, c: Core, a: Arch)
    requires Simulates(m, c, a) && !c.wb.flush
    ensures Next(m, c).ex.inExcept ==> !AtRf(m, Next(m, c), NextArch(m, c, a)).on
  {
    MoveRf(m, c, a);
    var k, n := AtRf(m, c, a), NextExecute(m, c.ex, c.rf, false);
    assert c.ex.inExcept ==> !k.on;
    if k.on && n.out.valid && n.out.except != NoExcept {
      MoveEx(m, c, a);
      StepEx(m, c, a);
      ExecuteStageExcept(m, k, n);
    }
    hide AtRf, Simulates, NextArch, Redirects, Isa.Execute, ExOk, RfOk;
  }

  lemma StepWb(m: Machine, c: Core, a: Arch)
    requires Simulates(m, c, a)
    ensures var w := Next(m, c).wb;
            && w.flush == w.alter == w.flushing
            && (w.flushing ==> w.pc == NextArch(m, c, a).pc)
            && (w.regWb.valid ==> w.regWb.idx != 0)
  {
    if Retires(c) {
      RetireIsExecute(m, c, a);
    }
    hide Isa.Execute, Redirects;
  }

  lemma StepControl(m: Machine, c: Core, a: Arch)
    requires Simulates(m, c, a) && !c.wb.flush
    ensures Control(m, Next(m, c), NextArch(m, c, a))
  {
    StepWb(m, c, a);
    StepLsControl(m, c, a);
    StepExControl(m, c, a);
    var c' := Next(m, c);
    assert c.rf.out.except == NoExcept && c.sch.out.except == NoExcept;
    assert c'.rf.out.except == NoExcept && c'.sch.out.except == NoExcept;
    hide AtEx, AtRf, NextArch, Next, Simulates;
  }

  // ---------------------------------------------------------------------------
  // The flush cycle
  // ---------------------------------------------------------------------------

  /** While writeback flushes, the memory port and the retirement are blocked. */
  lemma FlushBlocks(m: Machine, c: Core, a: Arch)
    requires Simulates(m, c, a) && c.wb.flush
    ensures Next(m, c).mem == c.mem == a.mem && !Retires(c) && NextArch(m, c, a) == a
  {
  }

  /** After it every stage is empty, the scoreboard clear, and fetch stands at the retired pc. */
  ghost predicate Empty(m: Machine, c: Core, a: Arch) {
    && !c.fe.out.valid && !c.id.valid && !c.sch.out.valid && !c.rf.out.valid && !c.ex.out.valid
    && !c.ls.out.valid && !c.cr.out.valid && !c.wb.regWb.valid
    && c.sch.inUse == {} && M.Idle(c.ex.mdu)
    && !c.ls.inExcept && !c.ex.inExcept && !c.wb.flush && !c.wb.alter && !c.wb.flushing
    && c.rf.out.except == NoExcept && c.sch.out.except == NoExcept
    && F.InStream(m, c.fe) && F.Position(c.fe) == a.pc
    && c.rf.ram == a.regs && c.mem == a.mem
  }

  lemma EmptySimulates(m: Machine, c: Core, a: Arch)
    requires Empty(m, c, a)
    ensures Simulates(m, c, a)
  {
    hide Isa.Execute, Redirects;
  }

  lemma FlushEmpties(m: Machine, c: Core, a: Arch)
    requires Simulates(m, c, a) && c.wb.flush
    ensures Empty(m, Next(m, c), a)
  {
    FlushBlocks(m, c, a);
    StepRegs(m, c, a);
    F.RedirectStep(m, c.fe, FrontInput(c));
    hide F.Next, F.InStream, F.Position, Isa.Execute, Redirects, Stages, Scoreboard;
  }

  // ---------------------------------------------------------------------------
  // One cycle, and all cycles
  // ---------------------------------------------------------------------------

  lemma ResetSimulates(m: Machine, init: Pc, mem: Mem)
    ensures Simulates(m, Reset(init, mem), Arch(init, ZERO_REGS, mem))
  {
    EmptySimulates(m, Reset(init, mem), Arch(init, ZERO_REGS, mem));
  }

  lemma SimulationStep(m: Machine, c: Core, a: Arch)
    requires Simulates(m, c, a)
    ensures Simulates(m, Next(m, c), NextArch(m, c, a))
  {
    if c.wb.flush {
      FlushBlocks(m, c, a);
      FlushEmpties(m, c, a);
      hide Simulates, Next, NextArch;
      EmptySimulates(m, Next(m, c), a);
    } else {
      StepControl(m, c, a);
      StepCr(m, c, a);
      StepLs(m, c, a);
      StepEx(m, c, a);
      StepRf(m, c, a);
      StepSch(m, c, a);
      StepId(m, c, a);
      StepFe(m, c, a);
      StepMem(m, c, a);
      StepRegs(m, c, a);
      StepMdu(m, c, a);
      StepScoreboard(m, c);
      NoZeroInFlight(c);
      StepSources(m, c);
      hide Next, NextArch, CrOk, LsOk, ExOk, RfOk, SchOk, IdOk, FeOk, FetchOk, Control, Scoreboard, SourcesSettled,
           MduOk;
    }
  }

  /** How many instructions have retired after t cycles. */
  function RetiredCount(m: Machine, c: Core, t: nat): nat { |Retired(m, c, t)| }

  lemma RetiredEventIsEvent(m: Machine, c: Core, a: Arch)
    requires Simulates(m, c, a) && Retires(c)
    ensures RetiredEvent(c) == EventOf(m, a)
  {
    RetireIsExecute(m, c, a);
  }

  lemma RetireStep(m: Machine, c0: Core, a0: Arch, t: nat, n: nat)
    requires n == RetiredCount(m, c0, t)
    requires Simulates(m, Run(m, c0, t), Execution(m, a0, n)) && Retired(m, c0, t) == Trace(m, a0, n)
    ensures var n' := RetiredCount(m, c0, t + 1);
            && n' == n + (if Retires(Run(m, c0, t)) then 1 else 0)
            && Execution(m, a0, n') == NextArch(m, Run(m, c0, t), Execution(m, a0, n))
            && Retired(m, c0, t + 1) == Trace(m, a0, n')
  {
    hide Simulates, Next, Isa.Execute, EventOf, RetiredEvent, Run, Retires;
    var c, a := Run(m, c0, t), Execution(m, a0, n);
    if Retires(c) {
      RetiredEventIsEvent(m, c, a);
    }
  }

  lemma {:induction false} RunSimulates(m: Machine, c0: Core, a0: Arch, t: nat)
    requires Simulates(m, c0, a0)
    ensures var n := RetiredCount(m, c0, t);
            && Simulates(m, Run(m, c0, t), Execution(m, a0, n))
            && Retired(m, c0, t) == Trace(m, a0, n)
    decreases t
  {
    hide Simulates, Next, Isa.Execute, EventOf, RetiredEvent;
    if t == 0 {
    } else {
      RunSimulates(m, c0, a0, t - 1);
      var n := RetiredCount(m, c0, t - 1);
      RetireStep(m, c0, a0, t - 1, n);
      SimulationStep(m, Run(m, c0, t - 1), Execution(m, a0, n));
    }
  }

  /** Number of stores and other instructions the memory stage is ahead of writeback. */
  ghost function Ahead(m: Machine, c: Core, a: Arch): nat {
    (if AtCr(c, a).on && c.cr.out.valid then 1 else 0) + (if AtLs(m, c, a).on && c.ls.out.valid then 1 else 0)
  }

  lemma PastExecution(m: Machine, k: Cursor, valid: bool, a0: Arch, n: nat)
    requires k.a == Execution(m, a0, n)
    ensures Past(m, k, valid).a == Execution(m, a0, n + if k.on && valid then 1 else 0)
  {
    hide Isa.Execute, Redirects;
  }

  /** The memory stage is Ahead instructions further on than writeback, and its memory with it. */
  lemma MemoryAhead(m: Machine, c: Core, a: Arch, a0: Arch, n: nat)
    requires Simulates(m, c, a) && a == Execution(m, a0, n)
    ensures c.mem == Execution(m, a0, n + Ahead(m, c, a)).mem && Ahead(m, c, a) <= 2
    ensures AtEx(m, c, a).a == Execution(m, a0, n + Ahead(m, c, a))
  {
    hide Execution, Stages, Control, Scoreboard, SourcesSettled, MduOk, Isa.Execute, Redirects;
    PastExecution(m, AtCr(c, a), c.cr.out.valid, a0, n);
    PastExecution(m, AtLs(m, c, a), c.ls.out.valid, a0, n + if AtCr(c, a).on && c.cr.out.valid then 1 else 0);
    hide Past;
  }

  /** The port writes for the instruction at the memory stage, once, if it is on the path. */
  lemma CycleStores(m: Machine, c: Core, a: Arch)
    requires Simulates(m, c, a)
    ensures StoreOfCycle(m, c) == if AtEx(m, c, a).on && c.ex.out.valid then StoreOf(m, AtEx(m, c, a).a) else []
  {
    var k := AtEx(m, c, a);
    assert ExOk(m, k, c.ex) && (c.ls.inExcept <==> !k.on);
    hide AtEx, Simulates, InstrAt, PortWrite, Redirects, TakesBranch;
  }

  /** A cycle takes the memory stage past the instruction that stood there. */
  lemma AheadMoves(m: Machine, c: Core, a: Arch)
    requires Simulates(m, c, a)
    ensures (if Retires(c) then 1 else 0) + Ahead(m, Next(m, c), NextArch(m, c, a)) ==
              Ahead(m, c, a) + if AtEx(m, c, a).on && c.ex.out.valid then 1 else 0
  {
    if !c.wb.flush {
      MoveCr(m, c, a);
      MoveLs(m, c, a);
      assert Next(m, c).cr.out.valid == c.ls.out.valid && Next(m, c).ls.out.valid == c.ex.out.valid;
    }
    hide Stages, Scoreboard, SourcesSettled, MduOk, NextArch, Isa.Execute, Redirects;
  }

  lemma StoreStep(m: Machine, c: Core, a: Arch, a0: Arch, n: nat)
    requires Simulates(m, c, a) && a == Execution(m, a0, n)
    ensures StoreLog(m, a0, n + Ahead(m, c, a)) + StoreOfCycle(m, c) ==
              StoreLog(m, a0, n + (if Retires(c) then 1 else 0) + Ahead(m, Next(m, c), NextArch(m, c, a)))
  {
    hide Simulates, Execution, Next, NextArch, AtEx, Ahead, StoreOfCycle, StoreOf, Retires;
    MemoryAhead(m, c, a, a0, n);
    CycleStores(m, c, a);
    AheadMoves(m, c, a);
  }

  /** The writes of the port are those of the instructions up to the memory stage, in order. */
  lemma {:induction false} StoresOfRun(m: Machine, c0: Core, a0: Arch, t: nat)
    requires Simulates(m, c0, a0) && Ahead(m, c0, a0) == 0
    ensures var n := RetiredCount(m, c0, t);
            && Simulates(m, Run(m, c0, t), Execution(m, a0, n))
            && Stores(m, c0, t) == StoreLog(m, a0, n + Ahead(m, Run(m, c0, t), Execution(m, a0, n)))
    decreases t
  {
    hide Simulates, Next, Isa.Execute, NextArch, EventOf, RetiredEvent, Retires, Ahead, StoreOfCycle, StoreLog, Retired,
         Trace, Execution;
    RunSimulates(m, c0, a0, t);
    if t == 0 {
      assert RetiredCount(m, c0, 0) == 0 && Execution(m, a0, 0) == a0
          && StoreLog(m, a0, 0) == [] by { NothingYet(m, c0, a0); }
    } else {
      var n := RetiredCount(m, c0, t - 1);
      StoresOfRun(m, c0, a0, t - 1);
      RunSimulates(m, c0, a0, t - 1);
      RetireStep(m, c0, a0, t - 1, n);
      StoreStep(m, Run(m, c0, t - 1), Execution(m, a0, n), a0, n);
    }
  }

  lemma NothingYet(m: Machine, c0: Core, a0: Arch)
    ensures RetiredCount(m, c0, 0) == 0 && Execution(m, a0, 0) == a0 && StoreLog(m, a0, 0) == []
  {
  }

  /** MAIN RESULT. For every program and every number of clock cycles from reset: the retired
      instructions, with the registers they wrote, are exactly the first n of sequential execution;
      the register file is the sequential one after those n instructions; memory is the sequential
      one at most two instructions further on; and the writes the memory port has made are, one for
      one and in order, those of the instructions up to there. */
  lemma CoreRefinesExecution(m: Machine, init: Pc, mem: Mem, t: nat)
    ensures var c0, a0 := Reset(init, mem), Arch(init, ZERO_REGS, mem);
            var c, n := Run(m, c0, t), RetiredCount(m, c0, t);
            && Retired(m, c0, t) == Trace(m, a0, n)
            && RegView(c) == Execution(m, a0, n).regs
            && exists k: nat :: n <= k <= n + 2 && c.mem == MemoryAfter(m, a0, k)
                && Stores(m, c0, t) == StoreLog(m, a0, k)
  {
    hide Simulates, Next, Isa.Execute, Retired, Run, Reset, Trace, Execution, Ahead, RegView, Stores, StoreLog;
    var c0, a0 := Reset(init, mem), Arch(init, ZERO_REGS, mem);
    ResetSimulates(m, init, mem);
    RunSimulates(m, c0, a0, t);
    var c, n := Run(m, c0, t), RetiredCount(m, c0, t);
    RegistersSettled(m, c, Execution(m, a0, n));
    var ahead := MemoryOfRun(m, init, mem, t);
    assert c.mem == MemoryAfter(m, a0, n + ahead);
  }

  /** Memory after n instructions. */
  function MemoryAfter(m: Machine, a: Arch, n: nat): Mem { Execution(m, a, n).mem }

  /** Memory and writes of a run: those of sequential execution `ahead` instructions further on. */
  lemma MemoryOfRun(m: Machine, init: Pc, mem: Mem, t: nat) returns (ahead: nat)
    ensures var c0, a0 := Reset(init, mem), Arch(init, ZERO_REGS, mem);
            var k := RetiredCount(m, c0, t) + ahead;
            ahead <= 2 && Run(m, c0, t).mem == MemoryAfter(m, a0, k) && Stores(m, c0, t) == StoreLog(m, a0, k)
  {
    hide Simulates, Next, Isa.Execute, Retired, Run, Reset, Trace, Execution, Ahead, RegView, Stores, StoreLog;
    var c0, a0 := Reset(init, mem), Arch(init, ZERO_REGS, mem);
    ResetSimulates(m, init, mem);
    NothingAhead(m, init, mem);
    StoresOfRun(m, c0, a0, t);
    var c, n := Run(m, c0, t), RetiredCount(m, c0, t);
    MemoryAhead(m, c, Execution(m, a0, n), a0, n);
    ahead := Ahead(m, c, Execution(m, a0, n));
  }

  lemma NothingAhead(m: Machine, init: Pc, mem: Mem)
    ensures Ahead(m, Reset(init, mem), Arch(init, ZERO_REGS, mem)) == 0
  {
  }

  lemma TruncatedBytes(size: nat, v: Word)
    ensures ByteOf(StoreData(size, v), 0) == ByteOf(v, 0)
    ensures size >= 1 ==> ByteOf(StoreData(size, v), 1) == ByteOf(v, 1)
    ensures size >= 2 ==> StoreData(size, v) == v
  {
    if size == 0 {
      SmallModulus(v % 0x100, 0x100);
    } else if size == 1 {
      var hi, lo := v / 0x100, v % 0x100;
      var top, mid := hi / 0x100, hi % 0x100;
      assert v == 0x1_0000 * top + (0x100 * mid + lo);
      QuotientUnique(v, 0x1_0000, top, 0x100 * mid + lo);
      QuotientUnique(0x100 * mid + lo, 0x100, mid, lo);
    }
  }

  /** What one instruction writes, played into a memory that agrees at x. */
  lemma WriteAt(m: Machine, a: Arch, mem: Mem, x: Word)
    requires mem(x) == a.mem(x)
    ensures Replay(mem, StoreOf(m, a))(x) == Isa.Execute(m, a).mem(x)
  {
    hide InstrAt, Traps, ByteOf, StoreData, MemTraps;
    ExecuteMem(m, a);
    var d := InstrAt(m, a.pc);
    TruncatedBytes(d.size, a.regs[d.rs2.idx]);
    assert Replay(mem, []) == mem;
    if StoreOf(m, a) != [] { assert StoreOf(m, a)[..0] == []; }
  }

  lemma ReplayParts(mem: Mem, log: seq<StoreEvent>, more: seq<StoreEvent>)
    requires |more| <= 1
    ensures Replay(mem, log + more) == Replay(Replay(mem, log), more)
  {
    if more == [] {
      assert log + more == log;
    } else {
      assert (log + more)[..|log|] == log && more[..0] == [];
    }
  }

  /** The writes played into the first memory give the memory after any number of instructions. */
  lemma {:induction false} ReplayIsMemory(m: Machine, a: Arch, n: nat, x: Word)
    ensures Replay(a.mem, StoreLog(m, a, n))(x) == MemoryAfter(m, a, n)(x)
  {
    hide Isa.Execute, StoreOf;
    if n == 0 {
    } else {
      ReplayIsMemory(m, a, n - 1, x);
      var b := Execution(m, a, n - 1);
      assert |StoreOf(m, b)| <= 1 by { AtMostOneWrite(m, b); }
      ReplayParts(a.mem, StoreLog(m, a, n - 1), StoreOf(m, b));
      WriteAt(m, b, Replay(a.mem, StoreLog(m, a, n - 1)), x);
    }
  }

  lemma AtMostOneWrite(m: Machine, a: Arch)
    ensures |StoreOf(m, a)| <= 1
  {
    hide InstrAt, MemTraps;
  }

  lemma RegistersSettled(m: Machine, c: Core, a: Arch)
    requires Simulates(m, c, a)
    ensures RegView(c) == a.regs
  {
    hide Control, Scoreboard, SourcesSettled, MduOk, Isa.Execute, Redirects;
  }
}
