/** Core and simulator run side by side: the clocked core with its own decompressor, field decoder
    and arithmetic unit retires exactly what the simulator executes (sim/trace.cc:1768-1927 against
    rtl/revive.sv). */
module Cosim {
  import opened Words
  import opened Rv32
  import A = Rv32Agree
  import L = Rv32Long
  import I = Isa
  import P = Pipeline
  import R = Refinement
  import V = Liveness

  // ---------------------------------------------------------------------------
  // The simulator's run
  // ---------------------------------------------------------------------------

  function LongWord(m: I.Machine, pc: Word): Word { m.program(pc) + 0x1_0000 * m.program(Plus(pc, 2)) }

  /** One cycle of the simulator: fetch, and one of the two kinds of execution. */
  function SimStep(m: I.Machine, a: I.Arch): Outcome {
    var h := m.program(a.pc);
    if I.IsShort(h) then SimShort(m, a, h as bv32) else SimLong(m, a, LongWord(m, a.pc) as bv32)
  }

  /** An instruction both readings agree on. */
  ghost predicate Conforms(m: I.Machine, a: I.Arch) {
    if I.IsShort(m.program(a.pc)) then !A.Divergent(m.program(a.pc) as bv32)
       else L.Modelled(LongWord(m, a.pc) as bv32) && !L.DivergentLong(LongWord(m, a.pc) as bv32)
  }

  /** The simulator's state after n cycles; it stays where it cannot go on. */
  function SimRun(m: I.Machine, a: I.Arch, n: nat): I.Arch {
    if n == 0 then a
    else
      var before := SimRun(m, a, n - 1);
      match SimStep(m, before)
      case Next(after, _) => after
      case Breakpoint(_) => before
      case Unknown => before
      case Elsewhere => before
  }

  /** What the simulator has written to the memory behind its port in n cycles, in order. */
  function SimWrites(m: I.Machine, a: I.Arch, n: nat): seq<I.StoreEvent> {
    if n == 0 then []
    else
      var step := SimStep(m, SimRun(m, a, n - 1));
      SimWrites(m, a, n - 1) + if step.Next? then step.stores else []
  }

  // ---------------------------------------------------------------------------
  // One instruction
  // ---------------------------------------------------------------------------

  lemma VectorRoundTrip(x: bv32)
    ensures (x as int) as bv32 == x
  {
  }

  /** Breakpoints and the rows of system and atomic unit, which the pipe does not model. */
  predicate InPipe(r: Row) { r.Row? || r.UnknownRow? }

  /** One instruction of the machine the core is proved against. */
  function Executed(m: I.Machine, a: I.Arch): Outcome { Next(I.Execute(m, a), I.StoreOf(m, a)) }

  /** What the core makes of a half-word is what CoreShort says, known encoding or not. */
  lemma ShortIsExecute(m: I.Machine, a: I.Arch)
    requires IsCore(m) && I.IsShort(m.program(a.pc)) && InPipe(Decode(Decompress(m.program(a.pc) as bv32).instr))
    ensures CoreShort(m, a, m.program(a.pc) as bv32) == Executed(m, a)
  {
    hide Decompress, Decode, DecodeRow, I.Perform, I.StoreBy;
    var i := m.program(a.pc) as bv32;
    VectorRoundTrip(Decompress(i).instr);
    assert m.expand(m.program(a.pc)) == Decompress(i).instr as int;
    assert m.decode(m.expand(m.program(a.pc))) == DecodeRow(Decode(Decompress(i).instr));
  }

  lemma LongIsExecute(m: I.Machine, a: I.Arch)
    requires IsCore(m) && !I.IsShort(m.program(a.pc)) && InPipe(Decode(LongWord(m, a.pc) as bv32))
    ensures CoreLong(m, a, LongWord(m, a.pc) as bv32) == Executed(m, a)
  {
    hide Decode, DecodeRow, I.Perform, I.StoreBy;
    assert m.decode(LongWord(m, a.pc)) == DecodeRow(Decode(LongWord(m, a.pc) as bv32));
  }

  lemma GoesOnInPipe(m: I.Machine, a: I.Arch, r: Row, half: bool)
    ensures CoreExecute(m, a, r, half).Next? <==> InPipe(r)
  {
    hide DecodeRow, I.Perform, I.StoreBy;
  }

  lemma ShortStepAgrees(m: I.Machine, a: I.Arch, i: bv32)
    requires A.Setting(m, a) && I.IsShort(m.program(a.pc)) && i == m.program(a.pc) as bv32 && !A.Divergent(i)
    ensures SimShort(m, a, i) == Executed(m, a)
  {
    hide A.Setting, SimShort, CoreExecute, Decompress, Decode, Executed, A.Divergent, InPipe;
    assert IsCore(m) by { TheCore(m, a); }
    A.ShortAgrees(m, a, i);
    ShortGoesOn(m, a, i);
    GoesOnInPipe(m, a, Decode(Decompress(i).instr), true);
    ShortIsExecute(m, a);
  }

  lemma LongStepAgrees(m: I.Machine, a: I.Arch, w: bv32)
    requires A.Setting(m, a) && !I.IsShort(m.program(a.pc)) && w == LongWord(m, a.pc) as bv32
    requires L.Modelled(w) && !L.DivergentLong(w)
    ensures SimLong(m, a, w) == Executed(m, a)
  {
    hide A.Setting, SimLong, CoreExecute, Decode, Executed, L.DivergentLong, L.Modelled, InPipe, LongWord;
    assert IsCore(m) by { TheCore(m, a); }
    L.LongAgrees(m, a, w);
    LongGoesOn(m, a, w);
    GoesOnInPipe(m, a, Decode(w), false);
    LongIsExecute(m, a);
  }

  /** Outside the family the simulator goes on. */
  lemma ShortGoesOn(m: I.Machine, a: I.Arch, i: bv32)
    requires !A.Divergent(i)
    ensures SimShort(m, a, i).Next?
  {
    hide Read, Plus, Nat32, Popular, Nat5, CrdRs1, Crs2, SimQ1Alu, I.Load, I.Store, I.Misaligned, A.ReservedPair,
         OffsetCJ, OffsetCB;
    assert i & 3 == 0 || i & 3 == 1 || i & 3 == 2 || i & 3 == 3;
    PairGoesOn(a, i);
  }

  lemma PairGoesOn(a: I.Arch, i: bv32)
    ensures SimQ1Alu(a, i).Next?
  {
    hide Read, Plus, Minus, Gated, ShiftLeft, ShiftRight, ShiftArith, Nat32, Popular;
  }

  lemma LongGoesOn(m: I.Machine, a: I.Arch, w: bv32)
    requires L.Modelled(w) && !L.DivergentLong(w)
    ensures SimLong(m, a, w).Next?
  {
    hide Opcode, Func3, L.FalseMultiply, EbreakWord, SimBranches, SimLoads, SimStores, SimImmediates, SimRegisters,
         SimFence, Rd, Rs1, Read, Plus, Nat5, Nat32, OffsetTypeJ, L.BranchKnown, L.LoadsAlike, L.StoresAlike;
    ClassesGoOn(m, a, w);
  }

  lemma ClassesGoOn(m: I.Machine, a: I.Arch, w: bv32)
    ensures SimImmediates(a, w).Next? && SimRegisters(a, w).Next?
    ensures L.BranchKnown(Func3(w)) ==> SimBranches(a, w).Next?
    ensures L.LoadsAlike(Func3(w)) ==> SimLoads(m, a, w).Next?
    ensures L.StoresAlike(Func3(w)) ==> SimStores(m, a, w).Next?
    ensures Func3(w) == 1 ==> SimFence(a, w).Next?
  {
    hide Func3, Func7, Rd, Rs1, Rs2, Read, Plus, Minus, Gated, ShiftLeft, ShiftRight, ShiftArith, Nat5, Nat32,
         OffsetTypeB, I.Load, I.Store, I.Misaligned;
  }

  lemma TheCore(m: I.Machine, a: I.Arch)
    requires A.Setting(m, a)
    ensures IsCore(m)
  {
  }

  /** One conforming instruction: simulator and core end in the same state and write the same. */
  lemma StepAgrees(m: I.Machine, a: I.Arch)
    requires A.Setting(m, a) && Conforms(m, a)
    ensures SimStep(m, a) == Executed(m, a)
  {
    hide A.Setting, SimShort, SimLong, Executed, A.Divergent, L.DivergentLong, L.Modelled, LongWord;
    if I.IsShort(m.program(a.pc)) {
      ShortStepAgrees(m, a, m.program(a.pc) as bv32);
    } else {
      LongStepAgrees(m, a, LongWord(m, a.pc) as bv32);
    }
  }

  lemma {:induction false} SimRunIsExecution(m: I.Machine, a: I.Arch, n: nat)
    requires A.Setting(m, a) && forall k: nat | k < n :: Conforms(m, SimRun(m, a, k))
    ensures SimRun(m, a, n) == I.Execution(m, a, n) && A.Setting(m, SimRun(m, a, n))
    ensures SimWrites(m, a, n) == I.StoreLog(m, a, n)
  {
    hide I.Execute, I.StoreOf, SimStep, Conforms, IsCore;
    V.ZeroStays(m, a, n);
    if n == 0 {
    } else {
      SimRunIsExecution(m, a, n - 1);
      assert Conforms(m, SimRun(m, a, n - 1));
      StepAgrees(m, SimRun(m, a, n - 1));
    }
  }

  // ---------------------------------------------------------------------------
  // The clocked core
  // ---------------------------------------------------------------------------

  /** A retired event takes the simulator's registers from one cycle to the next. */
  ghost predicate Follows(e: I.Event, before: I.Arch, after: I.Arch) {
    e.pc == before.pc && I.WriteReg(before.regs, e.rd, e.value) == after.regs
  }

  lemma EventFollows(m: I.Machine, a: I.Arch)
    ensures Follows(I.EventOf(m, a), a, I.Execute(m, a))
  {
    R.ExecuteRegs(m, a);
    hide I.InstrAt, I.Load, I.MemTraps;
  }

  lemma {:induction false} TraceAt(m: I.Machine, a: I.Arch, n: nat, k: nat)
    requires k < n
    ensures |I.Trace(m, a, n)| == n && I.Trace(m, a, n)[k] == I.EventOf(m, I.Execution(m, a, k))
  {
    hide I.EventOf, I.Execution;
    if n == 1 {
    } else {
      TraceAt(m, a, n - 1, if k < n - 1 then k else 0);
    }
  }

  lemma TraceLength(m: I.Machine, a: I.Arch, n: nat)
    ensures |I.Trace(m, a, n)| == n
  {
    if n == 0 {
    } else {
      TraceAt(m, a, n, 0);
    }
  }

  /** A core and its two logs in step with the simulator's run from a0. */
  ghost predicate InStep(m: I.Machine, a0: I.Arch, core: P.Core, retired: seq<I.Event>, stores: seq<I.StoreEvent>) {
    && (forall k: nat | k < |retired| :: Follows(retired[k], SimRun(m, a0, k), SimRun(m, a0, k + 1)))
    && P.RegView(core) == SimRun(m, a0, |retired|).regs
    && exists n: nat :: |retired| <= n <= |retired| + 2 && core.mem == SimRun(m, a0, n).mem
        && stores == SimWrites(m, a0, n)
  }

  /** MAIN RESULT. While the simulator runs conforming instructions, the clocked core follows it: the
      k-th instruction it retires is at the simulator's k-th pc and writes what the simulator writes,
      its registers are the simulator's after as many cycles, its memory is the simulator's at most two
      instructions on and was reached by the same writes in the same order, and it retires at least one
      instruction in 46 cycles. */
  lemma CoreFollowsSimulator(program: Word -> Half, faults: (Word, bool) -> bool, trapVector: I.Pc, init: I.Pc,
                             mem: I.Mem, t: nat, cycles: nat)
    requires var m, a0 := CoreMachine(program, faults, trapVector), I.Arch(init, P.ZERO_REGS, mem);
             && (forall k: nat | k < cycles :: Conforms(m, SimRun(m, a0, k)))
             && R.RetiredCount(m, P.Reset(init, mem), t) + 2 <= cycles
    ensures var m, a0 := CoreMachine(program, faults, trapVector), I.Arch(init, P.ZERO_REGS, mem);
            var c0 := P.Reset(init, mem);
            && InStep(m, a0, P.Run(m, c0, t), P.Retired(m, c0, t), P.Stores(m, c0, t))
            && t <= 46 * |P.Retired(m, c0, t)| + 45
  {
    hide P.Run, P.Reset, P.Retired, P.Stores, P.RegView, I.Execution, I.Trace, I.StoreLog, SimRun, SimWrites, Conforms,
         Follows, IsCore, CoreMachine;
    var m, a0 := CoreMachine(program, faults, trapVector), I.Arch(init, P.ZERO_REGS, mem);
    var c0 := P.Reset(init, mem);
    var n := R.RetiredCount(m, c0, t);
    TablesAreCore(program, faults, trapVector);
    R.CoreRefinesExecution(m, init, mem, t);
    CountBound(m, init, mem, t);
    forall k: nat | k <= n + 2 ensures SimRun(m, a0, k) == I.Execution(m, a0, k) { SimRunIsExecution(m, a0, k); }
    forall k: nat | k < n ensures Follows(P.Retired(m, c0, t)[k], SimRun(m, a0, k), SimRun(m, a0, k + 1)) {
      RetiredFollows(m, a0, n, k);
    }
    var ahead := R.MemoryOfRun(m, init, mem, t);
    SimRunIsExecution(m, a0, n + ahead);
    assert SimRun(m, a0, n + ahead) == I.Execution(m, a0, n + ahead);
  }

  lemma {:induction false} OneACycle(m: I.Machine, c: P.Core, t: nat)
    ensures R.RetiredCount(m, c, t) <= t
  {
    hide P.Run, P.Retires, P.RetiredEvent;
    if t == 0 {
    } else {
      OneACycle(m, c, t - 1);
    }
  }

  /** The same with a number of simulator cycles known beforehand: two more than clocks. */
  lemma CoreFollowsForCycles(program: Word -> Half, faults: (Word, bool) -> bool, trapVector: I.Pc, init: I.Pc,
                             mem: I.Mem, t: nat, cycles: nat)
    requires var m, a0 := CoreMachine(program, faults, trapVector), I.Arch(init, P.ZERO_REGS, mem);
             (forall k: nat | k < cycles :: Conforms(m, SimRun(m, a0, k))) && t + 2 <= cycles
    ensures var m, a0 := CoreMachine(program, faults, trapVector), I.Arch(init, P.ZERO_REGS, mem);
            var c0 := P.Reset(init, mem);
            && InStep(m, a0, P.Run(m, c0, t), P.Retired(m, c0, t), P.Stores(m, c0, t))
            && t <= 46 * |P.Retired(m, c0, t)| + 45
  {
    hide *;
    OneACycle(CoreMachine(program, faults, trapVector), P.Reset(init, mem), t);
    CoreFollowsSimulator(program, faults, trapVector, init, mem, t, cycles);
  }

  lemma TablesAreCore(program: Word -> Half, faults: (Word, bool) -> bool, trapVector: I.Pc)
    ensures IsCore(CoreMachine(program, faults, trapVector))
  {
  }

  lemma RetiredFollows(m: I.Machine, a0: I.Arch, n: nat, k: nat)
    requires k < n
    ensures |I.Trace(m, a0, n)| == n && Follows(I.Trace(m, a0, n)[k], I.Execution(m, a0, k), I.Execution(m, a0, k + 1))
  {
    hide I.Execute, Follows, I.EventOf, I.Trace;
    TraceAt(m, a0, n, k);
    EventFollows(m, I.Execution(m, a0, k));
  }

  lemma CountBound(m: I.Machine, init: I.Pc, mem: I.Mem, t: nat)
    ensures t <= 46 * R.RetiredCount(m, P.Reset(init, mem), t) + 45
  {
    hide P.Reset, P.Retired;
    V.EnoughCycles(m, init, mem, t / 46);
    V.CountGrows(m, P.Reset(init, mem), 46 * (t / 46), t % 46);
  }

  /** The trace a clocked core collects (Rtl.Revive.Simulate) is the simulator's, event by event. */
  lemma TraceFollowsSimulator(m: I.Machine, a0: I.Arch, n: nat)
    requires A.Setting(m, a0) && forall k: nat | k < n :: Conforms(m, SimRun(m, a0, k))
    ensures |I.Trace(m, a0, n)| == n
    ensures forall k: nat | k < n :: Follows(I.Trace(m, a0, n)[k], SimRun(m, a0, k), SimRun(m, a0, k + 1))
  {
    hide SimRun, SimWrites, SimStep, Conforms, Follows, I.Execution, I.Execute, I.Trace, I.StoreLog, IsCore;
    TraceLength(m, a0, n);
    forall k: nat | k < n ensures Follows(I.Trace(m, a0, n)[k], SimRun(m, a0, k), SimRun(m, a0, k + 1)) {
      SimRunIsExecution(m, a0, k);
      SimRunIsExecution(m, a0, k + 1);
      RetiredFollows(m, a0, n, k);
    }
  }
}
