/** The front end of the core: program counter, fetch register and the aligner that cuts the
    stream of 32-bit fetch words into 16- and 32-bit instructions
    (rtl/core/program_counter.sv, rtl/core/fetch.sv, rtl/core/align.sv). */
module Frontend {
  import opened Words
  import opened Isa

  /** A fetch word: `data0` and `data1` are the halves of the aligned word that contains `pc`. */
  datatype Fetched = Fetched(pc: Word, data0: Half, data1: Half, valid: bool)

  /** A half-word kept back by the aligner. */
  datatype Second = Second(valid: bool, instr: Half, pc: Word)

  datatype Aligned = Aligned(parcel: Parcel, valid: bool)

  datatype State = State(pc: Word, data: Fetched, second: Second, out: Aligned)

  /** `blind`: the simulated fetch port returns zeros while an exception is pending
      (sim/rtl.cc:124-144). */
  datatype Input = Input(stall: bool, flush: bool, alter: bool, target: Word, blind: bool)

  const NO_FETCH := Fetched(0, 0, 0, false)
  const NO_SECOND := Second(false, 0, 0)
  const NO_INSTR := Aligned(Parcel(0, 0, false), false)
  const NOP_ENCODING: Word := 0xbeef_beef

  function Reset(init: Word): State {
    State(init, NO_FETCH, NO_SECOND, NO_INSTR)
  }

  function Block(pc: Word): Word { pc - pc % 4 }
  function NextBlock(pc: Word): Word { Plus(Block(pc), 4) }

  // ---------------------------------------------------------------------------
  // Wires of the aligner (rtl/core/align.sv:34-41)
  // ---------------------------------------------------------------------------

  predicate SecondIsShort(s: State) { s.second.valid && IsShort(s.second.instr) }
  predicate SecondIsLong(s: State) { s.second.valid && !IsShort(s.second.instr) }
  predicate SecondCombine(s: State) { SecondIsLong(s) && s.data.valid }
  predicate UpperPc(pc: Word) { pc % 4 >= 2 }
  predicate ThirdIsShort(s: State) { !s.second.valid && s.data.valid && !UpperPc(s.data.pc) && IsShort(s.data.data0) }
  predicate ThirdIsLong(s: State) { !s.second.valid && s.data.valid && !UpperPc(s.data.pc) && !IsShort(s.data.data0) }
  predicate ForthIsShort(s: State) { !s.second.valid && s.data.valid && UpperPc(s.data.pc) && IsShort(s.data.data1) }

  /** The aligner holds the fetch register while it still has a whole short instruction in hand. */
  predicate AlignStall(s: State, i: Input) { i.stall || SecondIsShort(s) }

  function NextAligned(m: Machine, s: State): Aligned {
    if !s.data.valid && !s.second.valid then
      Aligned(Parcel(0, NOP_ENCODING, false), false)
    else if SecondIsShort(s) then
      Aligned(Parcel(s.second.pc, m.expand(s.second.instr), true), true)
    else if SecondCombine(s) then
      Aligned(Parcel(s.second.pc, s.second.instr + 0x1_0000 * s.data.data0, false), true)
    else if ThirdIsShort(s) then
      Aligned(Parcel(s.data.pc, m.expand(s.data.data0), true), true)
    else if ThirdIsLong(s) then
      Aligned(Parcel(s.data.pc, s.data.data0 + 0x1_0000 * s.data.data1, false), true)
    else if ForthIsShort(s) then
      Aligned(Parcel(s.data.pc, m.expand(s.data.data1), true), true)
    else
      Aligned(Parcel(0, NOP_ENCODING, false), false)
  }

  function NextSecond(s: State): Second {
    if SecondIsShort(s) || !s.data.valid || ThirdIsLong(s) || ForthIsShort(s) then NO_SECOND
    else Second(true, s.data.data1, Plus(Block(s.data.pc), 2))
  }

  function NextFetched(m: Machine, s: State, i: Input): Fetched {
    if i.blind then Fetched(s.pc, 0, 0, true)
    else Fetched(s.pc, m.program(Block(s.pc)), m.program(Plus(Block(s.pc), 2)), true)
  }

  /** One rising clock edge of the three front-end units. */
  function Next(m: Machine, s: State, i: Input): State {
    State(
      if i.alter then i.target else if !AlignStall(s, i) then NextBlock(s.pc) else s.pc,
      if i.flush then NO_FETCH else if !AlignStall(s, i) then NextFetched(m, s, i) else s.data,
      if i.flush then NO_SECOND else if !i.stall then NextSecond(s) else s.second,
      if i.flush then NO_INSTR else if !i.stall then NextAligned(m, s) else s.out)
  }

  // ---------------------------------------------------------------------------
  // The stream the aligner stands in
  // ---------------------------------------------------------------------------

  /** Address of the next instruction the front end will emit. */
  ghost function Position(s: State): Word {
    if s.second.valid then s.second.pc else if s.data.valid then s.data.pc else s.pc
  }

  /** The registers hold the right pieces of the program: a kept half always has the fetch word
      behind it, and the program counter is one word ahead of the fetch register. */
  ghost predicate InStream(m: Machine, s: State) {
    && s.pc % 2 == 0
    && (s.data.valid ==>
          && s.data.pc % 2 == 0
          && s.data.data0 == m.program(Block(s.data.pc))
          && s.data.data1 == m.program(Plus(Block(s.data.pc), 2))
          && s.pc == NextBlock(s.data.pc))
    && (s.second.valid ==>
          && s.data.valid && s.second.pc % 4 == 2
          && s.second.instr == m.program(s.second.pc)
          && s.data.pc == Plus(s.second.pc, 2))
  }

  function After(p: Parcel): Word { Plus(p.pc, Length(p.half)) }

  lemma MultipleOf4(k: int, r: int)
    requires 0 <= r < 4
    ensures (4 * k + r) % 4 == r
  {
  }

  lemma BlockOf(pc: Word)
    ensures Block(pc) % 4 == 0 && NextBlock(pc) % 4 == 0 && Block(pc) == pc - pc % 4
    ensures Plus(Block(pc), 2) == Block(pc) + 2 && Plus(Block(pc), 2) % 4 == 2
  {
    var k := pc / 4;
    MultipleOf4(k, 0);
    MultipleOf4(k, 2);
    MultipleOf4(k + 1, 0);
    assert Block(pc) == 4 * k;
    assert NextBlock(pc) == 4 * (k + 1) || NextBlock(pc) == 0;
  }

  lemma HalfOfBlock(pc: Word)
    ensures pc % 2 == 0 <==> pc % 4 == 0 || pc % 4 == 2
  {
    assert pc % 4 == pc - 4 * (pc / 4);
  }

  lemma BlockIsNext(pc: Word)
    ensures NextBlock(pc) == Plus(Block(pc), 4)
  {
  }

  /** The two places an even pc can have in its fetch word. */
  lemma EvenPc(pc: Word)
    requires pc % 2 == 0
    ensures NextBlock(pc) % 4 == 0 && NextBlock(pc) % 2 == 0
    ensures !UpperPc(pc) ==> pc % 4 == 0 && Block(pc) == pc && NextBlock(pc) == Plus(pc, 4)
    ensures !UpperPc(pc) ==> Plus(pc, 2) % 4 == 2 && NextBlock(pc) == Plus(Plus(pc, 2), 2)
    ensures UpperPc(pc) ==> pc % 4 == 2 && Plus(Block(pc), 2) == pc && NextBlock(pc) == Plus(pc, 2)
    ensures UpperPc(pc) ==> Plus(pc, 4) == Plus(NextBlock(pc), 2)
  {
    BlockOf(pc);
    HalfOfBlock(pc);
    HalfOfBlock(NextBlock(pc));
    hide Block, NextBlock;
    assert NextBlock(pc) == Plus(Block(pc), 4) by { BlockIsNext(pc); }
  }

  lemma PlusTwice(pc: Word)
    ensures Plus(pc, 4) == Plus(Plus(pc, 2), 2)
  {
  }

  lemma WordBehind(pc: Word, k: int)
    requires pc == 4 * k + 2
    ensures Plus(pc, 2) == 4 * (k + 1) || Plus(pc, 2) == 0
  {
  }

  lemma UpperHalf(pc: Word)
    requires pc % 4 == 2
    ensures !UpperPc(Plus(pc, 2)) && Plus(pc, 2) % 2 == 0
    ensures Plus(pc, 4) == Plus(Plus(pc, 2), 2)
  {
    PlusTwice(pc);
    Euclid(pc, 4);
    hide Plus;
    var k := pc / 4;
    WordBehind(pc, k);
    MultipleOf4(k + 1, 0);
    MultipleOf4(0, 0);
    HalfOfBlock(Plus(pc, 2));
  }

  /** A clock edge with only the consumer's stall as input. */
  function Clock(stall: bool): Input { Input(stall, false, false, 0, false) }

  /** What an unstalled edge promises. */
  ghost predicate Emits(m: Machine, s: State, n: State) {
    && InStream(m, n)
    && (n.out.valid ==> n.out.parcel == ParcelAt(m, Position(s)) && Position(n) == After(ParcelAt(m, Position(s))))
    && (!n.out.valid ==> Position(n) == Position(s))
  }

  ghost predicate Runs(i: Input) { !i.stall && !i.flush && !i.alter && !i.blind }

  lemma EmptyStep(m: Machine, s: State, i: Input)
    requires InStream(m, s) && Runs(i) && !s.data.valid
    ensures Emits(m, s, Next(m, s, i))
  {
    EvenPc(s.pc);
    hide Block, NextBlock, UpperPc, Plus;
  }

  lemma ShortSecondStep(m: Machine, s: State, i: Input)
    requires InStream(m, s) && Runs(i) && SecondIsShort(s)
    ensures Emits(m, s, Next(m, s, i))
  {
    hide Block, NextBlock, UpperPc, Plus;
  }

  lemma CombineStep(m: Machine, s: State, i: Input)
    requires InStream(m, s) && Runs(i) && SecondIsLong(s)
    ensures Emits(m, s, Next(m, s, i))
  {
    var n := Next(m, s, i);
    EvenPc(s.pc);
    EvenPc(s.data.pc);
    UpperHalf(s.second.pc);
    hide Block, NextBlock, UpperPc, Plus;
    assert n.second == Second(true, s.data.data1, Plus(Block(s.data.pc), 2));
    assert n.data == NextFetched(m, s, i) && n.pc == NextBlock(s.pc);
    hide Next;
    assert InStream(m, n);
  }

  lemma LowerHalfOut(m: Machine, s: State)
    requires InStream(m, s) && s.data.valid && !s.second.valid && !UpperPc(s.data.pc)
    ensures NextAligned(m, s) == Aligned(ParcelAt(m, s.data.pc), true)
  {
    EvenPc(s.data.pc);
    hide Block, NextBlock, UpperPc, Plus;
  }

  lemma LowerLongStep(m: Machine, s: State, n: State)
    requires InStream(m, s) && ThirdIsLong(s)
    requires n.data == NextFetched(m, s, Clock(false)) && n.pc == NextBlock(s.pc) && n.second == NO_SECOND
    requires n.out == Aligned(ParcelAt(m, s.data.pc), true)
    ensures Emits(m, s, n)
  {
    EvenPc(s.pc);
    EvenPc(s.data.pc);
    hide Block, NextBlock, UpperPc, Plus;
  }

  lemma LowerShortStep(m: Machine, s: State, n: State)
    requires InStream(m, s) && ThirdIsShort(s)
    requires n.data == NextFetched(m, s, Clock(false)) && n.pc == NextBlock(s.pc)
    requires n.second == Second(true, s.data.data1, Plus(Block(s.data.pc), 2))
    requires n.out == Aligned(ParcelAt(m, s.data.pc), true)
    ensures Emits(m, s, n)
  {
    EvenPc(s.pc);
    EvenPc(s.data.pc);
    hide Block, NextBlock, UpperPc, Plus;
  }

  lemma LowerStep(m: Machine, s: State, i: Input)
    requires InStream(m, s) && Runs(i) && s.data.valid && !s.second.valid && !UpperPc(s.data.pc)
    ensures Emits(m, s, Next(m, s, i))
  {
    LowerHalfOut(m, s);
    hide Block, NextBlock, UpperPc, Plus, InStream, NextAligned, NextFetched, ParcelAt, Emits;
    if ThirdIsShort(s) {
      LowerShortStep(m, s, Next(m, s, i));
    } else {
      LowerLongStep(m, s, Next(m, s, i));
    }
  }

  lemma UpperStep(m: Machine, s: State, i: Input)
    requires InStream(m, s) && Runs(i) && s.data.valid && !s.second.valid && UpperPc(s.data.pc)
    ensures Emits(m, s, Next(m, s, i))
  {
    EvenPc(s.pc);
    EvenPc(s.data.pc);
    hide Block, NextBlock, UpperPc, Plus;
  }

  /** One unstalled edge without redirect: the emitted slot is the instruction at the position, or
      a bubble that leaves the position alone. */
  lemma StreamStep(m: Machine, s: State, i: Input)
    requires InStream(m, s) && Runs(i)
    ensures Emits(m, s, Next(m, s, i))
  {
    hide Next, Emits, InStream;
    if s.second.valid {
      if SecondIsShort(s) { ShortSecondStep(m, s, i); } else { CombineStep(m, s, i); }
    } else if !s.data.valid {
      EmptyStep(m, s, i);
    } else if UpperPc(s.data.pc) {
      UpperStep(m, s, i);
    } else {
      LowerStep(m, s, i);
    }
  }

  /** A stalled edge changes nothing at all. */
  lemma StalledStep(m: Machine, s: State, i: Input)
    requires i.stall && !i.flush && !i.alter
    ensures Next(m, s, i) == s
  {
  }

  /** A redirect empties the front end and moves the position to the target. */
  lemma RedirectStep(m: Machine, s: State, i: Input)
    requires i.flush && i.alter && i.target % 2 == 0
    ensures InStream(m, Next(m, s, i)) && Position(Next(m, s, i)) == i.target
    ensures !Next(m, s, i).out.valid
  {
  }

  // ---------------------------------------------------------------------------
  // Whole runs between redirects
  // ---------------------------------------------------------------------------

  /** The instructions handed over on the unstalled edges of a run. */
  function Emitted(m: Machine, s: State, stalls: seq<bool>): seq<Parcel>
    decreases |stalls|
  {
    if |stalls| == 0 then []
    else
      var n := Next(m, s, Clock(stalls[0]));
      (if !stalls[0] && n.out.valid then [n.out.parcel] else []) + Emitted(m, n, stalls[1..])
  }

  /** The first n instructions of the program text from pc on. */
  function Parse(m: Machine, pc: Word, n: nat): seq<Parcel>
    decreases n
  {
    if n == 0 then [] else [ParcelAt(m, pc)] + Parse(m, After(ParcelAt(m, pc)), n - 1)
  }

  function Unstalled(stalls: seq<bool>): nat {
    if |stalls| == 0 then 0 else (if stalls[0] then 0 else 1) + Unstalled(stalls[1..])
  }

  /** Empty slots still due: the fetch itself, and one more when the entry point is the upper half
      of a word and starts a long instruction. */
  ghost function BubblesDue(m: Machine, s: State): nat {
    if s.second.valid then 0
    else (if s.data.valid then 0 else 1) +
         (if UpperPc(Position(s)) && !IsShort(m.program(Position(s))) then 1 else 0)
  }

  lemma BubbleStep(m: Machine, s: State, i: Input)
    requires InStream(m, s) && Runs(i)
    ensures Next(m, s, i).out.valid <==> BubblesDue(m, s) == 0
    ensures BubblesDue(m, Next(m, s, i)) == if BubblesDue(m, s) == 0 then 0 else BubblesDue(m, s) - 1
  {
    EvenPc(s.pc);
    if s.data.valid { EvenPc(s.data.pc); }
    if s.second.valid { UpperHalf(s.second.pc); }
    hide Block, NextBlock, UpperPc, Plus;
  }

  /** Under any stall pattern the front end hands over exactly the program text from its position,
      in order, nothing lost and nothing twice, and every unstalled edge beyond the due bubbles
      hands over one instruction. */
  lemma {:induction false} EmitsProgramText(m: Machine, s: State, stalls: seq<bool>)
    requires InStream(m, s)
    ensures var n := Unstalled(stalls) - BubblesDue(m, s);
            Emitted(m, s, stalls) == Parse(m, Position(s), if n < 0 then 0 else n)
    decreases |stalls|
  {
    hide Next, BubblesDue, InStream, Position;
    if |stalls| == 0 {
    } else {
      var i := Clock(stalls[0]);
      if stalls[0] {
        StalledStep(m, s, i);
      } else {
        StreamStep(m, s, i);
        BubbleStep(m, s, i);
      }
      EmitsProgramText(m, Next(m, s, i), stalls[1..]);
    }
  }

  /** The same from any state of the front end after a redirect to an even pc: one slot of fetch
      latency, and at most one bubble more. */
  lemma RedirectEmitsTarget(m: Machine, s: State, i: Input, stalls: seq<bool>)
    requires i.flush && i.alter && i.target % 2 == 0
    ensures var bubbles := 1 + if UpperPc(i.target) && !IsShort(m.program(i.target)) then 1 else 0;
            var n := Unstalled(stalls) - bubbles;
            Emitted(m, Next(m, s, i), stalls) == Parse(m, i.target, if n < 0 then 0 else n)
  {
    RedirectStep(m, s, i);
    EmitsProgramText(m, Next(m, s, i), stalls);
  }
}
