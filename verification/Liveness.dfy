/** The core never stops: some instruction retires within a fixed number of cycles, whatever the
    program, and the consequences of that and of the simulation for whole runs. */
module Liveness {
  import opened Words
  import opened Isa
  import opened Pipeline
  import opened Refinement
  import F = Frontend
  import M = Mdu

  /** No in-use bit outlives its writer, except behind a redirect that will clear them all. */
  ghost predicate NoStaleBits(m: Machine, c: Core, a: Arch) {
    AtRf(m, c, a).on ==> c.sch.inUse <= InFlight(c)
  }

  ghost predicate Invariant(m: Machine, c: Core, a: Arch) {
    Simulates(m, c, a) && NoStaleBits(m, c, a)
  }

  lemma OffStaysOff(m: Machine, k: Cursor, valid: bool)
    ensures !k.on ==> Past(m, k, valid) == k
  {
  }

  /** On the path the memory stage hands on what it holds: a fault there would be a redirect. */
  lemma LeavesMemory(m: Machine, c: Core, a: Arch)
    requires Simulates(m, c, a) && !c.wb.flush && AtRf(m, c, a).on
    ensures Next(m, c).cr.out == c.ls.out && !c.ex.inExcept
  {
    hide InstrAt, Outcome, Operand1, Address, F.Next, M.Next, Scoreboard, SourcesSettled, MduOk;
    assert LsOk(m, AtLs(m, c, a), c.ls) && (c.ex.inExcept ==> !AtRf(m, c, a).on);
    assert c.ls.out.valid && Traps(m, AtLs(m, c, a).a) ==> !AtEx(m, c, a).on;
    assert !AtEx(m, c, a).on ==> !AtRf(m, c, a).on;
  }

  /** On the path nothing is lost between the writer sets of two cycles. */
  lemma WritersMoveOn(m: Machine, c: Core, a: Arch)
    requires Simulates(m, c, a) && !c.wb.flush && AtRf(m, c, a).on && AtRf(m, Next(m, c), NextArch(m, c, a)).on
    ensures var c' := Next(m, c);
            && WbWriter(c'.wb.regWb) == Writers(c.cr.out)
            && Writers(c'.cr.out) == Writers(c.ls.out)
            && Writers(c'.ls.out) == Writers(c.ex.out)
            && Writers(c'.ex.out) + Writers(c'.rf.out) + Writers(c'.sch.out) >= Writers(c.rf.out) + Writers(c.sch.out)
  {
    LeavesMemory(m, c, a);
    NoFlushing(m, c, a);
    hide Simulates, NextArch, AtRf;
    WritersOfStages(m, c);
  }

  lemma NoFlushing(m: Machine, c: Core, a: Arch)
    requires Simulates(m, c, a) && !c.wb.flush
    ensures !c.wb.flushing
  {
    hide Stages, Scoreboard, SourcesSettled, MduOk, AtEx, AtRf;
  }

  lemma WritersOfStages(m: Machine, c: Core)
    requires !c.wb.flush && !c.wb.flushing && !c.ex.inExcept && Next(m, c).cr.out == c.ls.out
    ensures var c' := Next(m, c);
            && WbWriter(c'.wb.regWb) == Writers(c.cr.out)
            && Writers(c'.cr.out) == Writers(c.ls.out)
            && Writers(c'.ls.out) == Writers(c.ex.out)
            && Writers(c'.ex.out) + Writers(c'.rf.out) + Writers(c'.sch.out) >= Writers(c.rf.out) + Writers(c.sch.out)
  {
    hide M.Next, F.Next, NextMem, LoadedData;
  }

  lemma StepStaleBits(m: Machine, c: Core, a: Arch)
    requires Invariant(m, c, a)
    ensures NoStaleBits(m, Next(m, c), NextArch(m, c, a))
  {
    var c', a' := Next(m, c), NextArch(m, c, a);
    if c.wb.flush {
      assert c'.sch.inUse == {};
    } else if AtRf(m, c', a').on {
      MoveRf(m, c, a);
      OffStaysOff(m, AtRf(m, c, a), c.rf.out.valid);
      WritersMoveOn(m, c, a);
      var stall := ExecuteStall(c.rf, c.ex);
      var rd := if CanIssue(c.sch, c.id, c.wb.regWb, stall) && c.id.d.rd.valid && c.id.d.rd.idx != 0
          then {c.id.d.rd.idx} else {};
      InUseAfter(c.sch, c.id, c.wb.regWb, stall);
      assert c'.sch.inUse == (c.sch.inUse - WbWriter(c.wb.regWb)) + rd;
      assert Writers(c'.sch.out) >= rd;
      hide Simulates, Next, NextArch, AtRf, Writers, WbWriter, ExecuteStall, CanIssue;
    }
  }

  lemma InvariantStep(m: Machine, c: Core, a: Arch)
    requires Invariant(m, c, a)
    ensures Invariant(m, Next(m, c), NextArch(m, c, a))
  {
    StepStaleBits(m, c, a);
    hide NoStaleBits;
    SimulationStep(m, c, a);
    hide *;
  }

  // ---------------------------------------------------------------------------
  // A bound on the cycles to the next retirement
  // ---------------------------------------------------------------------------

  const MAX_WAIT: nat := 45

  /** Where the oldest instruction stands, and how far that is from writeback. */
  ghost function Wait(m: Machine, c: Core): nat {
    if c.wb.flushing then MAX_WAIT
    else if c.cr.out.valid then 0
    else if c.ls.out.valid then 1
    else if c.ex.out.valid then 2
    else if c.rf.out.valid then 3 + if c.rf.out.d.op.Mul? then M.EdgesLeft(c.ex.mdu, c.rf.out.d.op.mul) else 0
    else if c.sch.out.valid then 39
    else if c.id.valid then 40
    else if c.fe.out.valid then 41
    else 42 + F.BubblesDue(m, c.fe)
  }

  /** Up to the register file nothing is older than the register-fetch slot. */
  ghost predicate FrontOnly(c: Core) {
    !c.wb.flushing && !c.cr.out.valid && !c.ls.out.valid && !c.ex.out.valid
  }

  lemma WaitBound(m: Machine, c: Core, a: Arch)
    requires Simulates(m, c, a)
    ensures Wait(m, c) <= MAX_WAIT
  {
    if FrontOnly(c) && c.rf.out.valid && c.rf.out.d.op.Mul? {
      EdgesLeftBound(c.ex.mdu, c.rf.out.d.op.mul, Source1(c.rf), Source2(c.rf)) by { hide M.Working, M.Idle; }
    }
    hide Simulates;
  }

  lemma EdgesLeftBound(s: M.State, op: M.MduOp, x: Word, y: Word)
    requires M.Idle(s) || M.Working(s, op, x, y)
    ensures M.EdgesLeft(s, op) <= 35
  {
    Pow2Of32();
    BitLengthBound(s.multiplier, 32);
    hide M.Rv32M, Pow2, BitLength;
  }

  lemma BackHalfMoves(m: Machine, c: Core, a: Arch)
    requires Simulates(m, c, a) && !c.wb.flushing && !c.cr.out.valid && (c.ls.out.valid || c.ex.out.valid)
    ensures Wait(m, Next(m, c)) < Wait(m, c)
  {
    hide Stages, Scoreboard, SourcesSettled, MduOk, AtEx, AtRf;
  }

  lemma RegFetchMoves(m: Machine, c: Core, a: Arch)
    requires Simulates(m, c, a) && FrontOnly(c) && c.rf.out.valid
    ensures Wait(m, Next(m, c)) < Wait(m, c)
  {
    assert !c.ex.inExcept by { hide Stages, Scoreboard, SourcesSettled, MduOk; }
    var c' := Next(m, c);
    assert !c'.wb.flushing && !c'.cr.out.valid && !c'.ls.out.valid;
    if MduEnable(c.rf) {
      var i := MduInput(c.rf, false);
      assert MduOk(c);
      hide Simulates, M.Rv32M;
      if M.Idle(c.ex.mdu) {
        M.NewJobStarts(c.ex.mdu, i);
      } else {
        M.HeldJobStep(c.ex.mdu, i);
      }
      hide M.Working, M.Next;
    } else {
      hide Simulates, M.Next;
    }
  }

  lemma IssueWaits(m: Machine, c: Core, a: Arch)
    requires Invariant(m, c, a) && FrontOnly(c) && !c.rf.out.valid && !c.sch.out.valid
    ensures AllReady(c.sch, c.id.d, c.wb.regWb) && !CoreStall(c)
    ensures AtFetch(m, c, a).on || c.id.valid || c.fe.out.valid
  {
    assert AtRf(m, c, a).on && InFlight(c) <= WbWriter(c.wb.regWb);
    hide Simulates, Isa.Execute, Redirects;
  }

  lemma SchedulerMoves(m: Machine, c: Core, a: Arch)
    requires Invariant(m, c, a) && FrontOnly(c) && !c.rf.out.valid && (c.sch.out.valid || c.id.valid)
    ensures Wait(m, Next(m, c)) < Wait(m, c)
  {
    if !c.sch.out.valid {
      IssueWaits(m, c, a);
    }
    assert c.wb.flush == c.wb.flushing;
    hide Invariant, AllReady, M.Next;
    var c' := Next(m, c);
    assert !c'.wb.flushing && !c'.cr.out.valid && !c'.ls.out.valid && !c'.ex.out.valid;
    assert c'.rf.out == c.sch.out;
    if c.sch.out.valid && c.sch.out.d.op.Mul? {
      WorstJob(m, c, a, c.sch.out.d.op.mul);
    }
  }

  /** A multiplication entering execute finds the unit at rest. */
  lemma WorstJob(m: Machine, c: Core, a: Arch, op: M.MduOp)
    requires Simulates(m, c, a) && !c.wb.flushing && !c.rf.out.valid
    ensures M.EdgesLeft(Next(m, c).ex.mdu, op) <= 35
  {
    assert M.Idle(c.ex.mdu);
    assert Next(m, c).ex.mdu == c.ex.mdu by { hide Simulates; }
  }

  lemma FrontMoves(m: Machine, c: Core, a: Arch)
    requires Invariant(m, c, a) && FrontOnly(c) && !c.rf.out.valid && !c.sch.out.valid && !c.id.valid
    ensures Wait(m, Next(m, c)) < Wait(m, c)
  {
    IssueWaits(m, c, a);
    var c', i := Next(m, c), FrontInput(c);
    assert c.wb.flush == c.wb.flushing == c.wb.alter;
    assert !c'.wb.flushing && !c'.cr.out.valid && !c'.ls.out.valid && !c'.ex.out.valid && !c'.rf.out.valid
        && !c'.sch.out.valid;
    if !c.fe.out.valid {
      assert AtFetch(m, c, a).on && FetchOk(m, AtFetch(m, c, a), c.fe);
      OnUntilFetch(m, c, a);
      F.BubbleStep(m, c.fe, i);
    }
    hide Invariant, F.Next, F.BubblesDue, F.InStream, CoreStall;
  }

  lemma FlushMoves(m: Machine, c: Core, a: Arch)
    requires Simulates(m, c, a) && c.wb.flushing
    ensures Wait(m, Next(m, c)) < Wait(m, c)
  {
    FlushEmpties(m, c, a);
    hide Next, Simulates;
  }

  /** Each cycle either retires an instruction or brings the next retirement closer. */
  lemma WaitShrinks(m: Machine, c: Core, a: Arch)
    requires Invariant(m, c, a)
    ensures Retires(c) || Wait(m, Next(m, c)) < Wait(m, c)
  {
    if c.wb.flushing {
      FlushMoves(m, c, a);
    } else if c.cr.out.valid {
    } else if c.ls.out.valid || c.ex.out.valid {
      BackHalfMoves(m, c, a);
    } else if c.rf.out.valid {
      RegFetchMoves(m, c, a);
    } else if c.sch.out.valid || c.id.valid {
      SchedulerMoves(m, c, a);
    } else {
      FrontMoves(m, c, a);
    }
  }

  // ---------------------------------------------------------------------------
  // Whole runs from reset
  // ---------------------------------------------------------------------------

  lemma {:induction false} RunInvariant(m: Machine, init: Pc, mem: Mem, t: nat)
    ensures var c0, a0 := Reset(init, mem), Arch(init, ZERO_REGS, mem);
            Invariant(m, Run(m, c0, t), Execution(m, a0, RetiredCount(m, c0, t)))
    decreases t
  {
    hide Simulates, Next, Isa.Execute, EventOf, RetiredEvent;
    var c0, a0 := Reset(init, mem), Arch(init, ZERO_REGS, mem);
    if t == 0 {
      ResetSimulates(m, init, mem);
    } else {
      RunInvariant(m, init, mem, t - 1);
      ResetSimulates(m, init, mem);
      RunSimulates(m, c0, a0, t - 1);
      RetireStep(m, c0, a0, t - 1, RetiredCount(m, c0, t - 1));
      InvariantStep(m, Run(m, c0, t - 1), Execution(m, a0, RetiredCount(m, c0, t - 1)));
      hide Invariant, Reset;
    }
  }

  lemma {:induction false} RetiresSoon(m: Machine, init: Pc, mem: Mem, t: nat, w: nat)
    requires Wait(m, Run(m, Reset(init, mem), t)) <= w
    ensures RetiredCount(m, Reset(init, mem), t + w + 1) > RetiredCount(m, Reset(init, mem), t)
    decreases w
  {
    hide Wait, Invariant, Next, Reset, RetiredEvent, Retires, Execution;
    var c0 := Reset(init, mem);
    RunInvariant(m, init, mem, t);
    WaitShrinks(m, Run(m, c0, t), Execution(m, Arch(init, ZERO_REGS, mem), RetiredCount(m, c0, t)));
    if Retires(Run(m, c0, t)) {
      CountGrows(m, c0, t + 1, w);
    } else {
      assert Run(m, c0, t + 1) == Next(m, Run(m, c0, t));
      RetiresSoon(m, init, mem, t + 1, w - 1);
    }
  }

  lemma {:induction false} CountGrows(m: Machine, c: Core, t: nat, k: nat)
    ensures Retired(m, c, t) <= Retired(m, c, t + k)
    decreases k
  {
    hide Run, Retires, RetiredEvent;
    if k == 0 {
    } else {
      CountGrows(m, c, t, k - 1);
    }
  }

  /** In every 46 consecutive cycles at least one instruction retires. */
  lemma AlwaysRetires(m: Machine, init: Pc, mem: Mem, t: nat)
    ensures RetiredCount(m, Reset(init, mem), t + 46) > RetiredCount(m, Reset(init, mem), t)
  {
    hide Wait, Next, Reset, RetiredCount, Simulates;
    var c0, a0 := Reset(init, mem), Arch(init, ZERO_REGS, mem);
    RunInvariant(m, init, mem, t);
    WaitBound(m, Run(m, c0, t), Execution(m, a0, RetiredCount(m, c0, t)));
    RetiresSoon(m, init, mem, t, 45);
  }

  /** MAIN RESULT. Every instruction of sequential execution does retire: after 46 * n cycles the
      core has retired the first n instructions, and nothing else before them. */
  lemma {:induction false} EveryInstructionRetires(m: Machine, init: Pc, mem: Mem, n: nat)
    ensures Trace(m, Arch(init, ZERO_REGS, mem), n) <= Retired(m, Reset(init, mem), 46 * n)
  {
    hide Next, Reset, Simulates, Isa.Execute, EventOf;
    var c0, a0 := Reset(init, mem), Arch(init, ZERO_REGS, mem);
    EnoughCycles(m, init, mem, n);
    ResetSimulates(m, init, mem);
    RunSimulates(m, c0, a0, 46 * n);
    TracePrefix(m, a0, n, RetiredCount(m, c0, 46 * n) - n);
  }

  lemma {:induction false} EnoughCycles(m: Machine, init: Pc, mem: Mem, n: nat)
    ensures RetiredCount(m, Reset(init, mem), 46 * n) >= n
  {
    hide Reset, Retired;
    if n == 0 {
    } else {
      EnoughCycles(m, init, mem, n - 1);
      AlwaysRetires(m, init, mem, 46 * (n - 1));
    }
  }

  lemma {:induction false} TracePrefix(m: Machine, a: Arch, n: nat, k: nat)
    ensures Trace(m, a, n) <= Trace(m, a, n + k) && |Trace(m, a, n)| == n
    decreases n + k
  {
    hide EventOf, Isa.Execute;
    if k > 0 {
      TracePrefix(m, a, n, k - 1);
    } else if n > 0 {
      TracePrefix(m, a, n - 1, 0);
    } else {
    }
  }

  // ---------------------------------------------------------------------------
  // What holds in every cycle of every run
  // ---------------------------------------------------------------------------

  /** The architectural state the retired instructions of the first t cycles have reached. */
  ghost function ArchAfter(m: Machine, init: Pc, mem: Mem, t: nat): Arch {
    Execution(m, Arch(init, ZERO_REGS, mem), RetiredCount(m, Reset(init, mem), t))
  }

  /** In every cycle at most one writer of each register is in flight and its bit is set, x0 never
      is, and unless a redirect is on its way to writeback no other bit is set. */
  lemma ScoreboardAlways(m: Machine, init: Pc, mem: Mem, t: nat)
    ensures var c := Run(m, Reset(init, mem), t);
            && Scoreboard(c) && 0 !in InFlight(c)
            && (AtRf(m, c, ArchAfter(m, init, mem, t)).on ==> c.sch.inUse == InFlight(c))
  {
    hide Reset, Run, Next, RetiredCount, Stages, MduOk, AtRf;
    RunInvariant(m, init, mem, t);
    NoZeroInFlight(Run(m, Reset(init, mem), t));
  }

  /** In every cycle an instruction that is about to execute on the path of the program carries the
      register values its sequential predecessors left. */
  lemma OperandsAlways(m: Machine, init: Pc, mem: Mem, t: nat)
    ensures var c := Run(m, Reset(init, mem), t);
            var k := AtRf(m, c, ArchAfter(m, init, mem, t));
            k.on && c.rf.out.valid ==>
              && c.rf.out.pc == k.a.pc && c.rf.out.d == InstrAt(m, k.a.pc)
              && (c.rf.out.d.rs1.valid ==> c.rf.data1 == k.a.regs[c.rf.out.d.rs1.idx])
              && (c.rf.out.d.rs2.valid ==> c.rf.data2 == k.a.regs[c.rf.out.d.rs2.idx])
  {
    hide Reset, Run, Next, RetiredCount, Control, Scoreboard, SourcesSettled, MduOk, AtRf, InstrAt;
    RunInvariant(m, init, mem, t);
  }

  /** In every cycle an access on the path that has reached the trap stage carries the exception of its
      kind exactly if it faults: misalignment before page fault, a load apart from a store. */
  lemma FaultsAlways(m: Machine, init: Pc, mem: Mem, t: nat)
    ensures var c := Run(m, Reset(init, mem), t);
            var k := AtLs(m, c, ArchAfter(m, init, mem, t));
            k.on && c.ls.out.valid && c.ls.out.d.op.Mem? ==>
              var d, e := InstrAt(m, k.a.pc), c.ls.out.except;
              var addr := Address(d, Operand1(d, k.a.regs, k.a.pc));
              && c.ls.out.pc == k.a.pc && c.ls.out.d == d
              && (e.LoadMisalign? <==> d.op != Mem(ST) && Misaligned(d.size, addr))
              && (e.StoreMisalign? <==> d.op == Mem(ST) && Misaligned(d.size, addr))
              && (e.LoadPageFault? <==> d.op != Mem(ST) && !Misaligned(d.size, addr) && m.faults(addr, false))
              && (e.StorePageFault? <==> d.op == Mem(ST) && !Misaligned(d.size, addr) && m.faults(addr, true))
  {
    hide Reset, Run, Next, RetiredCount, Control, Scoreboard, SourcesSettled, MduOk, AtLs, InstrAt, Misaligned, Address;
    RunInvariant(m, init, mem, t);
  }

  /** x0 reads as zero in every cycle. */
  lemma {:induction false} ZeroRegister(m: Machine, init: Pc, mem: Mem, t: nat)
    ensures Run(m, Reset(init, mem), t).rf.ram[0] == 0
  {
    hide Reset, Run, Next, RetiredCount, Stages, MduOk, Scoreboard;
    RunInvariant(m, init, mem, t);
    ZeroStays(m, Arch(init, ZERO_REGS, mem), RetiredCount(m, Reset(init, mem), t));
  }

  lemma {:induction false} ZeroStays(m: Machine, a: Arch, n: nat)
    requires a.regs[0] == 0
    ensures Execution(m, a, n).regs[0] == 0
  {
    hide Isa.Execute, InstrAt, Traps, Outcome;
    if n == 0 {
    } else {
      ZeroStays(m, a, n - 1);
      ExecuteRegs(m, Execution(m, a, n - 1));
    }
  }

  /** Redirects are precise. Once a redirecting instruction has passed execute, nothing behind it
      stores; the cycle after it retires, writeback flushes towards its successor, and nothing
      retires; and the cycle after that every stage is empty, the scoreboard clear, the registers
      and memory are the sequential ones, and fetch stands at the sequential pc. */
  lemma PreciseRedirect(m: Machine, init: Pc, mem: Mem, t: nat)
    ensures var c0 := Reset(init, mem);
            var c, a, c' := Run(m, c0, t), ArchAfter(m, init, mem, t), Run(m, c0, t + 1);
            && (!AtEx(m, c, a).on ==> c'.mem == c.mem)
            && (Retires(c) && Redirects(m, a) ==>
                  c'.wb.flush && c'.wb.alter && c'.wb.pc == Isa.Execute(m, a).pc && !Retires(c'))
            && (c.wb.flush ==> Empty(m, c', a) && ArchAfter(m, init, mem, t + 1) == a)
  {
    var c0 := Reset(init, mem);
    var c, a := Run(m, c0, t), ArchAfter(m, init, mem, t);
    hide Reset, Scoreboard, SourcesSettled, MduOk;
    RunInvariant(m, init, mem, t);
    assert Run(m, c0, t + 1) == Next(m, c);
    assert !AtEx(m, c, a).on ==> c.ls.inExcept;
    hide Run;
    if c.wb.flush {
      FlushEmpties(m, c, a);
      FlushBlocks(m, c, a);
      SameCount(m, c0, t);
    } else if Retires(c) {
      RetireIsExecute(m, c, a);
    }
    hide Stages, Empty, Isa.Execute, Redirects, RetiredCount, AtEx;
  }

  lemma SameCount(m: Machine, c: Core, t: nat)
    requires !Retires(Run(m, c, t))
    ensures RetiredCount(m, c, t + 1) == RetiredCount(m, c, t)
  {
    hide Run, RetiredEvent;
  }
}
