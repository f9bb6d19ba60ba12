/** Trap entry, interrupts and returns of the simulator (sim/trace.cc:717-892; section 3.1.6.1 of the
    RISC-V Privileged ISA). Interrupt and delegation masks are sets of bit positions. */
module Traps {
  import opened Words

  datatype Level = U | S | M

  function PrivOf(x: Level): nat {
    match x
    case U => 0
    case S => 1
    case M => 3
  }

  /** The trap registers of one level: handler base, and what an entry saves. */
  datatype Bank = Bank(tvec: Word, epc: Word, cause: Word, tval: Word, ie: bool, pie: bool, pp: nat)

  datatype State = State(
    pc: Word, priv: nat, u: Bank, s: Bank, m: Bank,
    medeleg: set<nat>, sedeleg: set<nat>, mideleg: set<nat>, sideleg: set<nat>,
    enabled: set<nat>, pending: set<nat>, compressed: bool)
  {
    function At(x: Level): Bank {
      match x
      case U => u
      case S => s
      case M => m
    }

    function With(x: Level, b: Bank): State {
      match x
      case U => this.(u := b)
      case S => this.(s := b)
      case M => this.(m := b)
    }
  }

  function Alignment(compressed: bool): nat { if compressed then 2 else 4 }

  predicate Aligned(s: State) { s.pc % Alignment(s.compressed) == 0 }

  /** Vectored mode applies to interrupts only. */
  function HandlerBase(tvec: Word, isInt: bool, code: nat): Word
    requires code < 32
  {
    var base: Word := tvec - tvec % 4;
    if tvec % 4 == 0 || !isInt then base else Plus(base, 4 * code)
  }

  /** The previous-privilege field: none for user level, one bit for supervisor, two for machine. */
  function Previous(x: Level, b: Bank, priv: nat): nat {
    match x
    case U => b.pp
    case S => priv % 2
    case M => priv % 4
  }

  function Enter(s: State, x: Level, cause: Word, tval: Word, isInt: bool, code: nat): State
    requires code < 32
  {
    var b := s.At(x);
    var saved := b.(epc := s.pc, cause := cause, tval := tval, pp := Previous(x, b, s.priv), pie := b.ie, ie := false);
    s.With(x, saved).(pc := HandlerBase(b.tvec, isInt, code), priv := PrivOf(x))
  }

  /** The level an exception is delegated to. */
  function ExceptLevel(s: State, code: nat): Level {
    if code in s.medeleg && code in s.sedeleg && s.priv == 0 then U
    else if code in s.medeleg && s.priv <= 1 then S
    else M
  }

  function ExceptEnter(s: State, code: nat, tval: Word): State
    requires code < 32
  {
    Enter(s, ExceptLevel(s, code), code, tval, false, 0)
  }

  function TrapReturn(s: State, x: Level): State {
    var b := s.At(x);
    s.With(x, b.(ie := b.pie)).(
      pc := b.epc - b.epc % Alignment(s.compressed),
      priv := if x == U then 0 else b.pp)
  }

  // ---------------------------------------------------------------------------
  // Interrupts
  // ---------------------------------------------------------------------------

  const PRIORITY: seq<nat> := [11, 3, 7, 9, 1, 5, 8, 0, 4]

  /** The first pending code in order of priority; the simulator panics when there is none. */
  function FirstCode(mask: set<nat>): Option<nat> { FirstOf(mask, PRIORITY) }

  function FirstOf(mask: set<nat>, order: seq<nat>): Option<nat> {
    if order == [] then None else if order[0] in mask then Some(order[0]) else FirstOf(mask, order[1..])
  }

  datatype Target = Target(x: Level, mask: set<nat>)

  /** The level that takes an interrupt now, and the codes it may take. The user-level test looks at
      the supervisor enable bit. */
  function InterruptTarget(s: State): Option<Target> {
    var ready := s.enabled * s.pending;
    var forM, forS, forU := ready - s.mideleg, ready * s.mideleg - s.sideleg, ready * s.mideleg * s.sideleg;
    if forM != {} && (s.priv < 3 || s.m.ie) then Some(Target(M, forM))
    else if forS != {} && (s.priv < 1 || (s.priv == 1 && s.s.ie)) then Some(Target(S, forS))
    else if forU != {} && s.priv == 0 && s.s.ie then Some(Target(U, forU))
    else None
  }

  datatype Outcome = Ran(s: State) | Panic

  lemma {:induction false} FirstOfInRange(mask: set<nat>, order: seq<nat>)
    requires forall i | 0 <= i < |order| :: order[i] < 12
    ensures FirstOf(mask, order).Some? ==> FirstOf(mask, order).value < 12 && FirstOf(mask, order).value in mask
  {
    if order == [] {
    } else {
      FirstOfInRange(mask, order[1..]);
    }
  }

  function Interrupt(s: State): Outcome {
    var target := InterruptTarget(s);
    if target.None? then Ran(s)
    else
      FirstOfInRange(target.value.mask, PRIORITY);
      match FirstCode(target.value.mask)
      case None => Panic
      case Some(code) => Ran(Enter(s, target.value.x, 0x8000_0000 + code, 0, true, code))
  }

  // ---------------------------------------------------------------------------
  // One trap
  // ---------------------------------------------------------------------------

  /** Neither an exception nor an interrupt lowers the privilege. */
  lemma EntryNeverLowers(s: State, code: nat, tval: Word)
    requires s.priv <= 3 && code < 32
    ensures ExceptEnter(s, code, tval).priv >= s.priv
    ensures Interrupt(s).Ran? ==> Interrupt(s).s.priv >= s.priv
  {
  }

  /** A level that is interrupted takes no interrupt of its own, or of a lower level, before its
      handler enables interrupts again. At user level this fails when the supervisor enable bit is
      set, because that bit is the one tested. */
  lemma MaskedAfterEntry(s: State, x: Level, cause: Word, tval: Word, isInt: bool, code: nat)
    requires code < 32
    ensures var t := InterruptTarget(Enter(s, x, cause, tval, isInt, code));
            t.Some? ==> PrivOf(t.value.x) > PrivOf(x) || (x == U && t.value.x == U && s.s.ie)
  {
  }

  lemma UserReentry(s: State, cause: Word, tval: Word, isInt: bool, code: nat)
    requires code < 32
    ensures var ready, t := s.enabled * s.pending, InterruptTarget(Enter(s, U, cause, tval, isInt, code));
            (t.Some? && t.value.x == U) <==>
              (s.s.ie && ready * s.mideleg * s.sideleg != {} && ready - s.mideleg == {}
                  && ready * s.mideleg - s.sideleg == {})
  {
  }

  const QUIET := Bank(0, 0, 0, 0, false, false, 0)

  /** A user program at 0x40 with the handler at 0x100, one delegated interrupt pending, and the
      supervisor's enable bit set. */
  const REENTRANT :=
    State(0x40, 0, QUIET.(tvec := 0x100), QUIET.(ie := true), QUIET, {}, {}, {0}, {0}, {0}, {0}, true)

  /** There the handler is interrupted at once, at its own level, and the place in the program is lost. */
  lemma ReentryHappens()
    ensures var one := Enter(REENTRANT, U, 0x8000_0000, 0, true, 0);
            && Interrupt(REENTRANT) == Ran(one) && one.pc == 0x100 && one.u.epc == 0x40
            && Interrupt(one) == Ran(Enter(one, U, 0x8000_0000, 0, true, 0)) && Interrupt(one).s.u.epc == 0x100
  {
    var one := Enter(REENTRANT, U, 0x8000_0000, 0, true, 0);
    OnlySoftware(REENTRANT);
    OnlySoftware(one);
  }

  lemma OnlySoftware(s: State)
    requires s.enabled == s.pending == s.mideleg == s.sideleg == {0} && s.priv == 0 && s.s.ie
    ensures Interrupt(s) == Ran(Enter(s, U, 0x8000_0000, 0, true, 0))
  {
    var ready: set<nat> := s.enabled * s.pending;
    assert ready == {0} && ready - s.mideleg == {} && ready * s.mideleg - s.sideleg == {}
        && ready * s.mideleg * s.sideleg == {0};
    assert InterruptTarget(s) == Some(Target(U, {0}));
    FirstOfLast({0});
    hide Enter;
  }

  /** User software interrupts come last but one in the order of priority. */
  lemma FirstOfLast(mask: set<nat>)
    requires mask == {0}
    ensures FirstCode(mask) == Some(0)
  {
    FirstOfBehind(mask, 7);
    assert PRIORITY[0..] == PRIORITY;
  }

  lemma {:induction false} FirstOfBehind(mask: set<nat>, k: nat)
    requires mask == {0} && k <= 7
    ensures FirstOf(mask, PRIORITY[7 - k..]) == Some(0)
  {
    if k == 0 {
      assert PRIORITY[7..][0] == 0;
    } else {
      FirstOfBehind(mask, k - 1);
      assert PRIORITY[7 - k..][0] != 0 && PRIORITY[7 - k..][1..] == PRIORITY[7 - (k - 1)..];
    }
  }

  /** What a return from level x needs. */
  datatype Saved = Saved(epc: Word, pie: bool, pp: nat)

  function SavedAt(s: State, x: Level): Saved { Saved(s.At(x).epc, s.At(x).pie, s.At(x).pp) }

  predicate CanEnter(s: State, x: Level) {
    match x
    case U => s.priv == 0
    case S => s.priv <= 1
    case M => s.priv <= 3
  }

  lemma TargetCanEnter(s: State, code: nat)
    requires s.priv <= 3
    ensures CanEnter(s, ExceptLevel(s, code))
    ensures InterruptTarget(s).Some? ==> CanEnter(s, InterruptTarget(s).value.x)
  {
  }

  /** A return undoes the entry: whatever the handler did, if what the entry saved is in place the
      interrupted pc, privilege and enable bit are back. */
  lemma ReturnUndoesEntry(s: State, x: Level, cause: Word, tval: Word, isInt: bool, code: nat, m: State)
    requires code < 32 && CanEnter(s, x) && Aligned(s) && m.compressed == s.compressed
    requires SavedAt(m, x) == SavedAt(Enter(s, x, cause, tval, isInt, code), x)
    ensures var r := TrapReturn(m, x);
            r.pc == s.pc && r.priv == s.priv && r.At(x).ie == s.At(x).ie && r.compressed == s.compressed
  {
  }

  // ---------------------------------------------------------------------------
  // What an entry does, on codes and fields
  // ---------------------------------------------------------------------------

  /** The codes of the nine interrupts: software, timer and external ones for each level. */
  predicate KnownCode(code: nat) { code < 12 && code % 4 != 2 }

  /** A code tells its level (3 machine, 1 supervisor, 0 user) and its kind (0 software, 1 timer,
      2 external). The higher level goes first; on one level external, then software, then timer. */
  predicate GoesFirst(c: nat, d: nat) {
    c % 4 > d % 4 || (c % 4 == d % 4 && (c == d || c / 4 == 2 || (c / 4 == 0 && d / 4 == 1)))
  }

  /** The code taken is the known one of highest level and, on that level, of highest kind. */
  lemma FirstCodeGoesFirst(mask: set<nat>)
    ensures FirstCode(mask).Some? <==> exists c :: c in mask && KnownCode(c)
    ensures FirstCode(mask).Some? ==>
              && FirstCode(mask).value in mask && KnownCode(FirstCode(mask).value)
              && forall d | d in mask && KnownCode(d) :: GoesFirst(FirstCode(mask).value, d)
  {
    FirstOfEach(mask);
    forall d | KnownCode(d) ensures d in PRIORITY { CodesListed(d); }
  }

  lemma CodesListed(d: nat)
    requires KnownCode(d)
    ensures d in PRIORITY
  {
    assert PRIORITY[0] == 11 && PRIORITY[1] == 3 && PRIORITY[2] == 7 && PRIORITY[3] == 9 && PRIORITY[4] == 1;
    assert PRIORITY[5] == 5 && PRIORITY[6] == 8 && PRIORITY[7] == 0 && PRIORITY[8] == 4;
  }

  /** In a list in order of precedence the first code of the mask goes before all others. */
  lemma {:induction false} FirstOfOrdered(mask: set<nat>, order: seq<nat>)
    requires forall i, j | 0 <= i <= j < |order| :: GoesFirst(order[i], order[j])
    requires forall i | 0 <= i < |order| :: KnownCode(order[i])
    ensures FirstOf(mask, order).None? <==> forall i | 0 <= i < |order| :: order[i] !in mask
    ensures FirstOf(mask, order).Some? ==>
              && FirstOf(mask, order).value in mask && KnownCode(FirstOf(mask, order).value)
              && forall i | 0 <= i < |order| && order[i] in mask :: GoesFirst(FirstOf(mask, order).value, order[i])
  {
    hide GoesFirst, KnownCode;
    if order == [] {
    } else {
      var rest := order[1..];
      assert forall i | 0 <= i < |rest| :: rest[i] == order[i + 1];
      FirstOfOrdered(mask, rest);
      assert forall i | 1 <= i < |order| :: order[i] == rest[i - 1];
    }
  }

  lemma FirstOfEach(mask: set<nat>)
    ensures FirstCode(mask).None? <==> forall d | d in PRIORITY :: d !in mask
    ensures FirstCode(mask).Some? ==>
              && FirstCode(mask).value in mask && KnownCode(FirstCode(mask).value)
              && forall d | d in PRIORITY && d in mask :: GoesFirst(FirstCode(mask).value, d)
    ensures forall d | d in PRIORITY :: KnownCode(d)
  {
    FirstOfOrdered(mask, PRIORITY);
  }

  /** Interrupt `code` can be taken by level x: it is pending, enabled and delegated that far, and x is
      above the running level or is it with its enable bit set; for user level the bit tested is the
      supervisor's. */
  predicate Deliverable(s: State, x: Level, code: nat) {
    && code in s.enabled && code in s.pending
    && match x
       case M => code !in s.mideleg && (s.priv < 3 || s.m.ie)
       case S => code in s.mideleg && code !in s.sideleg && (s.priv < 1 || (s.priv == 1 && s.s.ie))
       case U => code in s.mideleg && code in s.sideleg && s.priv == 0 && s.s.ie
  }

  ghost predicate TakenBy(s: State, x: Level) {
    && (exists code :: Deliverable(s, x, code))
    && forall y, code | PrivOf(y) > PrivOf(x) :: !Deliverable(s, y, code)
  }

  /** What an entry to level x leaves in every field: cause, value and interrupted pc, the enable bit
      moved aside, the privilege saved, the handler's address, and nothing else. */
  ghost predicate Entered(s: State, r: State, x: Level, cause: int, tval: Word, pc: int) {
    var b, a := s.At(x), r.At(x);
    && r.pc == pc && r.priv == (match x case U => 0 case S => 1 case M => 3)
    && a.cause == cause && a.tval == tval && a.epc == s.pc && a.tvec == b.tvec && a.pie == b.ie && !a.ie
    && (x == U ==> a.pp == b.pp) && (x == S ==> a.pp == s.priv % 2) && (x == M ==> a.pp == s.priv % 4)
    && (x != U ==> r.u == s.u) && (x != S ==> r.s == s.s) && (x != M ==> r.m == s.m)
    && r.medeleg == s.medeleg && r.sedeleg == s.sedeleg && r.mideleg == s.mideleg && r.sideleg == s.sideleg
    && r.enabled == s.enabled && r.pending == s.pending && r.compressed == s.compressed
  }

  /** The handler of interrupt `code`: four bytes apart per code in vectored mode. */
  lemma VectoredAddress(tvec: Word, code: nat)
    requires code < 32
    ensures HandlerBase(tvec, false, code) == tvec - tvec % 4
    ensures HandlerBase(tvec, true, code) ==
              if tvec % 4 == 0 then tvec else (tvec - tvec % 4 + 4 * code) % 0x1_0000_0000
  {
  }

  lemma CodeFits(mask: set<nat>)
    ensures FirstCode(mask).Some? ==> FirstCode(mask).value < 12
  {
    FirstOfInRange(mask, PRIORITY);
  }

  lemma TargetIsHighest(s: State, x: Level)
    ensures (forall y, code :: !Deliverable(s, y, code)) ==> InterruptTarget(s).None?
    ensures TakenBy(s, x) ==>
              && InterruptTarget(s).Some? && InterruptTarget(s).value.x == x
              && forall code: nat :: code in InterruptTarget(s).value.mask <==> Deliverable(s, x, code)
  {
    var ready := s.enabled * s.pending;
    var forM, forS, forU := ready - s.mideleg, ready * s.mideleg - s.sideleg, ready * s.mideleg * s.sideleg;
    assert forall code: nat :: code in forM <==> code in ready && code !in s.mideleg;
    if forM != {} { var c :| c in forM; assert (s.priv < 3 || s.m.ie) ==> Deliverable(s, M, c); }
    if forS != {} { var c :| c in forS; assert (s.priv < 1 || (s.priv == 1 && s.s.ie)) ==> Deliverable(s, S, c); }
    if forU != {} { var c :| c in forU; assert s.priv == 0 && s.s.ie ==> Deliverable(s, U, c); }
  }

  /** Where interrupt c enters level x. */
  function InterruptPc(s: State, x: Level, c: nat): int {
    var tvec := s.At(x).tvec;
    if tvec % 4 == 0 then tvec else (tvec - tvec % 4 + 4 * c) % 0x1_0000_0000
  }

  lemma InterruptFields(s: State, x: Level, c: nat)
    requires c < 12
    ensures Entered(s, Enter(s, x, 0x8000_0000 + c, 0, true, c), x, 0x8000_0000 + c, 0, InterruptPc(s, x, c))
  {
    VectoredAddress(s.At(x).tvec, c);
    hide HandlerBase;
  }

  lemma InterruptRuns(s: State)
    requires InterruptTarget(s).Some?
    ensures var t := InterruptTarget(s).value;
            match FirstCode(t.mask)
            case None => Interrupt(s) == Panic
            case Some(c) => c < 12 && Interrupt(s) == Ran(Enter(s, t.x, 0x8000_0000 + c, 0, true, c))
  {
    CodeFits(InterruptTarget(s).value.mask);
    hide FirstCode, Enter, InterruptTarget;
  }

  /** A known code level x can take, and none that goes before it there. */
  ghost predicate Chosen(s: State, x: Level, c: nat) {
    && Deliverable(s, x, c) && KnownCode(c)
    && forall d | Deliverable(s, x, d) && KnownCode(d) :: GoesFirst(c, d)
  }

  /** An interrupt goes to the highest level that has one to take, with the code that goes first
      there; it panics if that level has only unknown codes; without one nothing happens. */
  lemma InterruptEffect(s: State, x: Level)
    ensures (forall y, code :: !Deliverable(s, y, code)) ==> Interrupt(s) == Ran(s)
    ensures TakenBy(s, x) && (forall code | Deliverable(s, x, code) :: !KnownCode(code)) ==> Interrupt(s) == Panic
    ensures TakenBy(s, x) && (exists code :: Deliverable(s, x, code) && KnownCode(code)) ==>
              exists c: nat ::
                && Chosen(s, x, c) && Interrupt(s).Ran?
                && Entered(s, Interrupt(s).s, x, 0x8000_0000 + c, 0, InterruptPc(s, x, c))
  {
    hide Deliverable, KnownCode, GoesFirst, FirstCode, Entered, Enter, InterruptPc, InterruptTarget, TakenBy;
    TargetIsHighest(s, x);
    if TakenBy(s, x) {
      hide Interrupt;
      var mask := InterruptTarget(s).value.mask;
      FirstCodeGoesFirst(mask);
      InterruptRuns(s);
      if FirstCode(mask).Some? {
        var c := FirstCode(mask).value;
        InterruptFields(s, x, c);
        assert Chosen(s, x, c);
      }
    }
  }

  /** An exception goes to machine level unless it is delegated and comes from a lower one: then to
      supervisor level, or from user level and delegated once more to user level. */
  lemma ExceptEffect(s: State, code: nat, tval: Word)
    requires code < 32
    ensures exists x: Level ::
              && Entered(s, ExceptEnter(s, code, tval), x, code, tval, s.At(x).tvec - s.At(x).tvec % 4)
              && (x == M <==> code !in s.medeleg || s.priv > 1)
              && (x == U <==> code in s.medeleg && code in s.sedeleg && s.priv == 0)
  {
    assert Entered(s, ExceptEnter(s, code, tval), ExceptLevel(s, code), code, tval,
                   s.At(ExceptLevel(s, code)).tvec - s.At(ExceptLevel(s, code)).tvec % 4);
  }

  lemma ExceptBanks(s: State, code: nat, tval: Word)
    requires code < 32
    ensures var r := ExceptEnter(s, code, tval);
            && (r.priv == 0 || r.priv == 1 || r.priv == 3)
            && (r.priv == 3 <==> code !in s.medeleg || s.priv > 1)
            && (r.priv == 0 <==> code in s.medeleg && code in s.sedeleg && s.priv == 0)
            && (r.priv == 3 ==>
                  r.pc == s.m.tvec - s.m.tvec % 4 && r.m == Bank(s.m.tvec, s.pc, code, tval, false, s.m.ie, s.priv % 4))
            && (r.priv == 1 ==>
                  r.pc == s.s.tvec - s.s.tvec % 4 && r.s == Bank(s.s.tvec, s.pc, code, tval, false, s.s.ie, s.priv % 2))
            && (r.priv == 0 ==>
                  r.pc == s.u.tvec - s.u.tvec % 4 && r.u == Bank(s.u.tvec, s.pc, code, tval, false, s.u.ie, s.u.pp))
  {
    ExceptEffect(s, code, tval);
    hide ExceptEnter;
  }

  // ---------------------------------------------------------------------------
  // Nested traps
  // ---------------------------------------------------------------------------

  datatype Cause = Exception(code: nat, tval: Word) | External

  /** What a context does: instructions of its own that leave it in some state, and traps, each with
      what its handler does before it returns. A handler that `saves` puts back epc and status from
      memory before the return. */
  datatype Activity = Work(next: State) | Trap(cause: Cause, handler: seq<Activity>, saves: bool)

  /** Instructions other than traps and returns keep the privilege and what entries have saved. */
  predicate WorkAllowed(s: State, n: State) {
    n.priv == s.priv && n.compressed == s.compressed && Aligned(n) && forall x: Level :: SavedAt(n, x) == SavedAt(s, x)
  }

  datatype Entry = Entry(x: Level, s: State)

  /** The entry a cause makes, if it makes one. */
  function Take(s: State, cause: Cause): Option<Entry> {
    match cause
    case Exception(code, tval) => if code < 32 then Some(Entry(ExceptLevel(s, code), ExceptEnter(s, code, tval)))
        else None
    case External =>
      var target := InterruptTarget(s);
      if target.None? || Interrupt(s).Panic? then None else Some(Entry(target.value.x, Interrupt(s).s))
  }

  function Restore(m: State, x: Level, saved: Saved): State {
    m.With(x, m.At(x).(epc := saved.epc, pie := saved.pie, pp := saved.pp))
  }

  /** The state after it all, the levels that took a trap, and the lowest privilege on the way. */
  datatype Report = Report(s: State, taken: set<Level>, lowest: nat)

  /** Runs a properly nested sequence. A handler need not save if nothing traps to its own level
      before it returns; if something does and it has not saved, the sequence is not proper. */
  function Perform(s: State, acts: seq<Activity>): Option<Report>
    decreases acts, 0
  {
    if acts == [] then Some(Report(s, {}, s.priv))
    else match acts[0]
    case Work(n) =>
      if !WorkAllowed(s, n) then None else
      (match Perform(n, acts[1..])
       case None => None
       case Some(r) => Some(r.(lowest := Min(s.priv, r.lowest))))
    case Trap(cause, handler, saves) =>
      var handled := Handle(s, cause, handler, saves);
      if handled.None? then None else
      (match Perform(handled.value.s, acts[1..])
       case None => None
       case Some(r) => Some(Report(r.s, handled.value.taken + r.taken,
           Min(Min(s.priv, handled.value.lowest), r.lowest))))
  }

  function Min(a: nat, b: nat): nat { if a < b then a else b }

  /** One trap from entry to return. */
  function Handle(s: State, cause: Cause, handler: seq<Activity>, saves: bool): Option<Report>
    decreases handler, 1
  {
    var entry := Take(s, cause);
    if entry.None? then None else
      var x := entry.value.x;
      (match Perform(entry.value.s, handler)
       case None => None
       case Some(r) =>
         if x in r.taken && !saves then None
         else
           var ready := if saves then Restore(r.s, x, SavedAt(entry.value.s, x)) else r.s;
           Some(Report(TrapReturn(ready, x), {x} + r.taken, r.lowest)))
  }

  lemma EntryFacts(s: State, cause: Cause)
    requires s.priv <= 3 && Take(s, cause).Some?
    ensures var e := Take(s, cause).value;
            && CanEnter(s, e.x) && e.s.priv == PrivOf(e.x) >= s.priv && e.s.compressed == s.compressed && Aligned(e.s)
            && (forall y | y != e.x :: SavedAt(e.s, y) == SavedAt(s, y))
            && exists c: Word, tval: Word, isInt: bool,
                code: nat | code < 32 :: e.s == Enter(s, e.x, c, tval, isInt, code)
  {
    var e := Take(s, cause).value;
    match cause
    case Exception(code, tval) =>
      TargetCanEnter(s, code);
      assert e.s == Enter(s, e.x, code, tval, false, 0);
      EnterFacts(s, e.x, code, tval, false, 0);
    case External =>
      TargetCanEnter(s, 0);
      FirstOfInRange(InterruptTarget(s).value.mask, PRIORITY);
      var code := FirstCode(InterruptTarget(s).value.mask).value;
      assert e.s == Enter(s, e.x, 0x8000_0000 + code, 0, true, code);
      EnterFacts(s, e.x, 0x8000_0000 + code, 0, true, code);
  }

  lemma EnterFacts(s: State, x: Level, cause: Word, tval: Word, isInt: bool, code: nat)
    requires code < 32 && CanEnter(s, x)
    ensures var e := Enter(s, x, cause, tval, isInt, code);
            && e.priv == PrivOf(x) >= s.priv && e.compressed == s.compressed && Aligned(e)
            && forall y | y != x :: SavedAt(e, y) == SavedAt(s, y)
  {
    BaseAligned(s.At(x).tvec, isInt, code);
  }

  lemma BaseAligned(tvec: Word, isInt: bool, code: nat)
    requires code < 32
    ensures HandlerBase(tvec, isInt, code) % 4 == 0 && HandlerBase(tvec, isInt, code) % 2 == 0
  {
    var base: int := tvec - tvec % 4;
    var quarter := tvec / 4;
    assert base == 4 * quarter;
    assert base + 4 * code == 4 * (quarter + code);
    assert base + 4 * code - 0x1_0000_0000 == 4 * (quarter + code - 0x4000_0000);
    Fours(quarter);
    Fours(quarter + code);
    Fours(quarter + code - 0x4000_0000);
  }

  lemma Fours(k: int)
    ensures (4 * k) % 4 == 0 && (4 * k) % 2 == 0
  {
    Twos(2 * k);
    assert 4 * k == 2 * (2 * k);
    assert (4 * k) % 4 == 0;
  }

  lemma Twos(k: int)
    ensures (2 * k) % 2 == 0
  {
  }

  /** Between its entry and its return a trap leaves every context below as it was: each return
      brings back the interrupted pc, privilege and enable bit, at every depth of nesting. */
  lemma {:induction false} TrapResumes(s: State, cause: Cause, handler: seq<Activity>, saves: bool)
    requires s.priv <= 3 && Aligned(s) && Handle(s, cause, handler, saves).Some?
    ensures var r := Handle(s, cause, handler, saves).value;
            && r.s.pc == s.pc && r.s.priv == s.priv && r.s.compressed == s.compressed
            && r.s.At(Take(s, cause).value.x).ie == s.At(Take(s, cause).value.x).ie
            && r.lowest >= s.priv
            && forall y | y !in r.taken :: SavedAt(r.s, y) == SavedAt(s, y)
    decreases handler, 1
  {
    var e := Take(s, cause).value;
    EntryFacts(s, cause);
    SequenceResumes(e.s, handler);
    var r := Perform(e.s, handler).value;
    var ready := if saves then Restore(r.s, e.x, SavedAt(e.s, e.x)) else r.s;
    RestoreFacts(r.s, e.x, SavedAt(e.s, e.x));
    assert SavedAt(ready, e.x) == SavedAt(e.s, e.x);
    var c: Word, tval: Word, isInt: bool, code: nat :| code < 32 && e.s == Enter(s, e.x, c, tval, isInt, code);
    ReturnUndoesEntry(s, e.x, c, tval, isInt, code, ready);
    ReturnFacts(ready, e.x);
    hide Take, Perform, TrapReturn, Restore, SavedAt, Enter, CanEnter;
  }

  lemma RestoreFacts(m: State, x: Level, saved: Saved)
    ensures var r := Restore(m, x, saved);
            SavedAt(r, x) == saved && r.compressed == m.compressed
                && forall y | y != x :: SavedAt(r, y) == SavedAt(m, y)
  {
  }

  lemma ReturnFacts(m: State, x: Level)
    ensures forall y :: SavedAt(TrapReturn(m, x), y) == SavedAt(m, y)
  {
  }

  /** A whole sequence keeps the privilege it started with, never goes below it, and leaves alone
      what entries to levels it does not trap to have saved. */
  lemma {:induction false} SequenceResumes(s: State, acts: seq<Activity>)
    requires s.priv <= 3 && Aligned(s) && Perform(s, acts).Some?
    ensures var r := Perform(s, acts).value;
            && r.s.priv == s.priv == r.lowest && r.s.compressed == s.compressed && Aligned(r.s)
            && forall y | y !in r.taken :: SavedAt(r.s, y) == SavedAt(s, y)
    decreases acts, 0
  {
    if acts == [] {
    } else {
      match acts[0]
      case Work(n) =>
        SequenceResumes(n, acts[1..]);
      case Trap(cause, handler, saves) =>
        TrapResumes(s, cause, handler, saves);
        SequenceResumes(Handle(s, cause, handler, saves).value.s, acts[1..]);
    }
  }

  // ---------------------------------------------------------------------------
  // Which sequences are proper
  // ---------------------------------------------------------------------------

  lemma TargetTaken(s: State)
    ensures InterruptTarget(s).Some? ==> TakenBy(s, InterruptTarget(s).value.x)
  {
    var ready := s.enabled * s.pending;
    var forM, forS, forU := ready - s.mideleg, ready * s.mideleg - s.sideleg, ready * s.mideleg * s.sideleg;
    assert forall c: nat | Deliverable(s, M, c) :: c in forM;
    assert forall c: nat | Deliverable(s, S, c) :: c in forS;
    if InterruptTarget(s).Some? {
      var c: nat :| c in InterruptTarget(s).value.mask;
      assert Deliverable(s, InterruptTarget(s).value.x, c);
    }
  }

  /** Every exception enters a handler, and every interrupt that can be taken with a known code. */
  lemma TakeHappens(s: State, cause: Cause)
    ensures cause.Exception? ==> (Take(s, cause).Some? <==> cause.code < 32)
    ensures cause.External? ==>
              (Take(s, cause).Some? <==>
                 exists x: Level :: TakenBy(s, x) && exists code :: Deliverable(s, x, code) && KnownCode(code))
  {
    if cause.External? {
      TargetTaken(s);
      hide Deliverable, KnownCode, TakenBy, InterruptTarget, Interrupt;
      if InterruptTarget(s).Some? {
        var x := InterruptTarget(s).value.x;
        TargetIsHighest(s, x);
        InterruptRuns(s);
        FirstCodeGoesFirst(InterruptTarget(s).value.mask);
      }
      forall x: Level | TakenBy(s, x) ensures InterruptTarget(s).Some? && InterruptTarget(s).value.x == x {
        TargetIsHighest(s, x);
      }
    }
  }

  /** A trap is proper when it enters, its handler is a proper sequence, and the handler saves if its
      own level traps again. */
  lemma HandleHappens(s: State, cause: Cause, handler: seq<Activity>, saves: bool)
    ensures Take(s, cause).None? ==> Handle(s, cause, handler, saves).None?
    ensures Take(s, cause).Some? ==>
              var x, inner := Take(s, cause).value.x, Perform(Take(s, cause).value.s, handler);
              var whole := Handle(s, cause, handler, saves);
              && (whole.Some? <==> inner.Some? && (saves || x !in inner.value.taken))
              && (whole.Some? ==>
                    whole.value.lowest == inner.value.lowest && whole.value.taken == {x} + inner.value.taken)
  {
    hide Take, TrapReturn, Restore, SavedAt;
  }

  /** A sequence is proper when its first activity is and the rest is from there. Its report covers
      the privileges of all its parts. */
  lemma PerformHappens(s: State, first: Activity, rest: seq<Activity>)
    ensures first.Work? ==>
              var whole, tail := Perform(s, [first] + rest), Perform(first.next, rest);
              && (whole.Some? <==> WorkAllowed(s, first.next) && tail.Some?)
              && (whole.Some? ==>
                    && whole.value.s == tail.value.s && whole.value.taken == tail.value.taken
                    && IsLeast(whole.value.lowest, {s.priv, tail.value.lowest}))
    ensures first.Trap? ==>
              var whole, trap := Perform(s, [first] + rest), Handle(s, first.cause, first.handler, first.saves);
              if trap.None? then whole.None?
              else
                var tail := Perform(trap.value.s, rest);
                && (whole.Some? <==> tail.Some?)
                && (whole.Some? ==>
                      && whole.value.s == tail.value.s && whole.value.taken == trap.value.taken + tail.value.taken
                      && IsLeast(whole.value.lowest, {s.priv, trap.value.lowest, tail.value.lowest}))
  {
    assert ([first] + rest)[1..] == rest;
    hide Handle, WorkAllowed;
  }

  lemma NothingPerformed(s: State)
    ensures Perform(s, []) == Some(Report(s, {}, s.priv))
  {
  }

  predicate IsLeast(n: nat, all: set<nat>) { n in all && forall k | k in all :: n <= k }

  /** Exceptions inside each other's handlers, k deep, every handler saving. */
  function Nested(code: nat, k: nat): seq<Activity> {
    if k == 0 then [] else [Trap(Exception(code, 0), Nested(code, k - 1), true)]
  }

  /** They are proper at every depth. */
  lemma {:induction false} NestedIsProper(s: State, code: nat, k: nat)
    requires code < 32 && s.priv <= 3 && Aligned(s)
    ensures Perform(s, Nested(code, k)).Some?
    decreases k
  {
    if k == 0 {
    } else {
      var cause := Exception(code, 0);
      TakeHappens(s, cause);
      EntryFacts(s, cause);
      var e := Take(s, cause).value.s;
      PrivAtMostThree(s, cause);
      NestedIsProper(e, code, k - 1);
      HandleHappens(s, cause, Nested(code, k - 1), true);
      PerformHappens(s, Trap(cause, Nested(code, k - 1), true), []);
      NothingPerformed(Handle(s, cause, Nested(code, k - 1), true).value.s);
      assert [Trap(cause, Nested(code, k - 1), true)] + [] == Nested(code, k);
      hide Take, Handle, Perform, Aligned;
    }
  }

  lemma PrivAtMostThree(s: State, cause: Cause)
    requires s.priv <= 3 && Take(s, cause).Some?
    ensures Take(s, cause).value.s.priv <= 3
  {
    EntryFacts(s, cause);
  }

  /** Why a handler that lets its own level trap again must save, whatever that level is: without it
      the outer return goes back into the handler, which is where the program was interrupted only if
      it stood at the handler's first instruction. */
  lemma UnsavedNestingIsLost(s: State, code: nat, tval: Word)
    requires code < 32
    ensures var x := ExceptLevel(s, code);
            var first := ExceptEnter(s, code, tval);
            var second := ExceptEnter(first, code, tval);
            var back := TrapReturn(TrapReturn(second, x), x);
            && ExceptLevel(first, code) == x && back.pc == first.pc
            && (back.pc == s.pc <==> s.pc == HandlerBase(s.At(x).tvec, false, 0))
  {
    BaseAligned(s.At(ExceptLevel(s, code)).tvec, false, 0);
  }

  // ---------------------------------------------------------------------------
  // The simulator's state, updated in place
  // ---------------------------------------------------------------------------

  function BitsOf(w: Word): set<nat> { set i: nat | i < 32 && BitSet(w, i) :: i }

  function TvecCsr(x: Level): nat {
    match x
    case U => 0x005
    case S => 0x105
    case M => 0x305
  }

  function EpcCsr(x: Level): nat { TvecCsr(x) + 0x3c }

  class TraceSimDriver {
    var pc: Word
    var priv: nat
    var uie: bool
    var sie: bool
    var mie: bool
    var upie: bool
    var spie: bool
    var mpie: bool
    var spp: nat
    var mpp: nat
    var inte: Word
    var intp: Word
    var inthw: Word
    const compressed: bool
    const csr: array<Word>

    constructor (entry: Word, compressed: bool)
      ensures csr.Length == 4096 && fresh(csr) && this.compressed == compressed && pc == entry && priv == 3
    {
      this.compressed := compressed;
      csr := new Word[4096](_ => 0);
      pc, priv := entry, 3;
      uie, sie, mie, upie, spie, mpie, spp, mpp := false, false, false, false, false, false, 0, 0;
      inte, intp, inthw := 0, 0, 0;
    }

    ghost function BankOf(x: Level): Bank
      requires csr.Length == 4096
      reads this, csr
    {
      var e := EpcCsr(x);
      match x
      case U => Bank(csr[TvecCsr(x)], csr[e], csr[e + 1], csr[e + 2], uie, upie, 0)
      case S => Bank(csr[TvecCsr(x)], csr[e], csr[e + 1], csr[e + 2], sie, spie, spp)
      case M => Bank(csr[TvecCsr(x)], csr[e], csr[e + 1], csr[e + 2], mie, mpie, mpp)
    }

    ghost function Snapshot(): State
      requires csr.Length == 4096
      reads this, csr
    {
      State(pc, priv, BankOf(U), BankOf(S), BankOf(M),
            BitsOf(csr[0x302]), BitsOf(csr[0x102]), BitsOf(csr[0x303]), BitsOf(csr[0x103]),
            BitsOf(inte), BitsOf(intp) + BitsOf(inthw), compressed)
    }

    /** Where the state sits: the CSRs by their numbers, the status fields beside them. */
    lemma Layout()
      requires csr.Length == 4096
      ensures var s := Snapshot();
              && s.pc == pc && s.priv == priv && s.compressed == compressed
              && s.u == Bank(csr[0x005], csr[0x041], csr[0x042], csr[0x043], uie, upie, 0)
              && s.s == Bank(csr[0x105], csr[0x141], csr[0x142], csr[0x143], sie, spie, spp)
              && s.m == Bank(csr[0x305], csr[0x341], csr[0x342], csr[0x343], mie, mpie, mpp)
      ensures forall i: nat ::
                && (i in Snapshot().medeleg <==> i < 32 && BitSet(csr[0x302], i))
                && (i in Snapshot().sedeleg <==> i < 32 && BitSet(csr[0x102], i))
                && (i in Snapshot().mideleg <==> i < 32 && BitSet(csr[0x303], i))
                && (i in Snapshot().sideleg <==> i < 32 && BitSet(csr[0x103], i))
                && (i in Snapshot().enabled <==> i < 32 && BitSet(inte, i))
                && (i in Snapshot().pending <==> i < 32 && (BitSet(intp, i) || BitSet(inthw, i)))
    {
      hide BitSet;
    }

    /** Saves the interrupted pc, the cause and the value of a trap to one level. */
    method SaveCsr(x: Level, cause: Word, tval: Word)
      requires csr.Length == 4096
      modifies csr
      ensures forall y: Level :: BankOf(y) == if y == x then old(BankOf(x)).(epc := pc, cause := cause, tval := tval)
                else old(BankOf(y))
      ensures csr[0x302] == old(csr[0x302]) && csr[0x102] == old(csr[0x102])
      ensures csr[0x303] == old(csr[0x303]) && csr[0x103] == old(csr[0x103])
      ensures OtherCsrsKept()
    {
      var e := EpcCsr(x);
      csr[e] := pc;
      csr[e + 1] := cause;
      csr[e + 2] := tval;
    }

    /** Nothing but the three save areas has changed. */
    twostate predicate OtherCsrsKept()
      reads this, csr
    {
      forall i | 0 <= i < csr.Length && !(0x041 <= i <= 0x043 || 0x141 <= i <= 0x143 || 0x341 <= i <= 0x343) ::
        csr[i] == old(csr[i])
    }

    // The assignments common to exceptEnter and interrupt, level by level
    method EnterUser(cause: Word, tval: Word, isInt: bool, code: nat)
      requires csr.Length == 4096 && code < 32
      modifies this, csr
      ensures Snapshot() == Enter(old(Snapshot()), U, cause, tval, isInt, code)
      ensures OtherCsrsKept()
    {
      hide BitsOf, HandlerBase;
      SaveCsr(U, cause, tval);
      upie, uie := uie, false;
      pc := HandlerBase(csr[TvecCsr(U)], isInt, code);
      priv := 0;
    }

    method EnterSupervisor(cause: Word, tval: Word, isInt: bool, code: nat)
      requires csr.Length == 4096 && code < 32
      modifies this, csr
      ensures Snapshot() == Enter(old(Snapshot()), S, cause, tval, isInt, code)
      ensures OtherCsrsKept()
    {
      hide BitsOf, HandlerBase;
      SaveCsr(S, cause, tval);
      spp, spie, sie := priv % 2, sie, false;
      pc := HandlerBase(csr[TvecCsr(S)], isInt, code);
      priv := 1;
    }

    method EnterMachine(cause: Word, tval: Word, isInt: bool, code: nat)
      requires csr.Length == 4096 && code < 32
      modifies this, csr
      ensures Snapshot() == Enter(old(Snapshot()), M, cause, tval, isInt, code)
      ensures OtherCsrsKept()
    {
      hide BitsOf, HandlerBase;
      SaveCsr(M, cause, tval);
      mpp, mpie, mie := priv % 4, mie, false;
      pc := HandlerBase(csr[TvecCsr(M)], isInt, code);
      priv := 3;
    }

    method EnterLevel(x: Level, cause: Word, tval: Word, isInt: bool, code: nat)
      requires csr.Length == 4096 && code < 32
      modifies this, csr
      ensures Snapshot() == Enter(old(Snapshot()), x, cause, tval, isInt, code)
      ensures OtherCsrsKept()
    {
      hide BitsOf, Enter;
      match x {
        case U => EnterUser(cause, tval, isInt, code);
        case S => EnterSupervisor(cause, tval, isInt, code);
        case M => EnterMachine(cause, tval, isInt, code);
      }
    }

    method ExceptionEnter(code: nat, tval: Word)
      requires csr.Length == 4096 && code < 32
      modifies this, csr
      ensures Snapshot() == ExceptEnter(old(Snapshot()), code, tval)
      ensures OtherCsrsKept()
      ensures priv == 3 <==> old(priv > 1 || !BitSet(csr[0x302], code))
      ensures priv == 0 <==> old(priv == 0 && BitSet(csr[0x302], code) && BitSet(csr[0x102], code))
      ensures priv == 3 ==>
                && csr[0x341] == old(pc) && csr[0x342] == code && csr[0x343] == tval
                && pc == old(csr[0x305] - csr[0x305] % 4) && mpp == old(priv % 4) && mpie == old(mie) && !mie
      ensures priv == 1 ==>
                && csr[0x141] == old(pc) && csr[0x142] == code && csr[0x143] == tval
                && pc == old(csr[0x105] - csr[0x105] % 4) && spp == old(priv % 2) && spie == old(sie) && !sie
      ensures priv == 0 ==>
                && csr[0x041] == old(pc) && csr[0x042] == code && csr[0x043] == tval
                && pc == old(csr[0x005] - csr[0x005] % 4) && upie == old(uie) && !uie
    {
      hide BitsOf, BitSet, ExceptEnter, ExceptLevel;
      Layout();
      ghost var before := Snapshot();
      assert code in before.medeleg <==> BitSet(csr[0x302], code);
      assert code in before.sedeleg <==> BitSet(csr[0x102], code);
      ExceptBanks(before, code, tval);
      Delegate(code, tval);
      Layout();
      hide TraceSimDriver.Snapshot;
    }

    /** The choice of the level. */
    method Delegate(code: nat, tval: Word)
      requires csr.Length == 4096 && code < 32
      modifies this, csr
      ensures Snapshot() == ExceptEnter(old(Snapshot()), code, tval) && OtherCsrsKept()
    {
      hide BitsOf;
      if code in BitsOf(csr[0x302]) && code in BitsOf(csr[0x102]) && priv == 0 {
        EnterLevel(U, code, tval, false, 0);
      } else if code in BitsOf(csr[0x302]) && priv <= 1 {
        EnterLevel(S, code, tval, false, 0);
      } else {
        EnterLevel(M, code, tval, false, 0);
      }
    }

    method Return(x: Level)
      requires csr.Length == 4096
      modifies this
      ensures Snapshot() == TrapReturn(old(Snapshot()), x)
      ensures var epc := csr[match x case U => 0x041 case S => 0x141 case M => 0x341];
              pc == epc - epc % (if compressed then 2 else 4)
      ensures x == M ==> priv == mpp == old(mpp) && mie == mpie == old(mpie)
      ensures x == S ==> priv == spp == old(spp) && sie == spie == old(spie)
      ensures x == U ==> priv == 0 && uie == upie == old(upie)
    {
      hide BitsOf;
      pc := csr[EpcCsr(x)] - csr[EpcCsr(x)] % Alignment(compressed);
      match x {
        case U => uie, priv := upie, 0;
        case S => sie, priv := spie, spp;
        case M => mie, priv := mpie, mpp;
      }
    }

    method FindFirstIntCode(mask: set<nat>) returns (code: Option<nat>)
      ensures code == FirstCode(mask)
      ensures code.None? <==> forall d | d in mask :: !KnownCode(d)
      ensures code.Some? ==> code.value in mask && forall d | d in mask && KnownCode(d) :: GoesFirst(code.value, d)
    {
      hide GoesFirst, KnownCode;
      FirstCodeGoesFirst(mask);
      for i := 0 to |PRIORITY|
        invariant FirstOf(mask, PRIORITY) == FirstOf(mask, PRIORITY[i..])
      {
        if PRIORITY[i] in mask {
          return Some(PRIORITY[i]);
        }
        assert PRIORITY[i..][1..] == PRIORITY[i + 1..];
      }
      code := None;
    }

    /** False when the simulator panics. */
    method TakeInterrupt() returns (ok: bool)
      requires csr.Length == 4096
      modifies this, csr
      ensures ok ==> Interrupt(old(Snapshot())) == Ran(Snapshot())
      ensures !ok ==> Interrupt(old(Snapshot())).Panic? && Snapshot() == old(Snapshot())
      ensures OtherCsrsKept()
    {
      hide BitsOf, FirstOf, Enter;
      var ready := BitsOf(inte) * (BitsOf(intp) + BitsOf(inthw));
      var mideleg, sideleg := BitsOf(csr[0x303]), BitsOf(csr[0x103]);
      var forM, forS, forU := ready - mideleg, ready * mideleg - sideleg, ready * mideleg * sideleg;
      var x, mask := M, {};
      if forM != {} && (priv < 3 || mie) {
        x, mask := M, forM;
      } else if forS != {} && (priv < 1 || (priv == 1 && sie)) {
        x, mask := S, forS;
      } else if forU != {} && priv == 0 && sie {
        x, mask := U, forU;
      } else {
        return true;
      }
      FirstOfInRange(mask, PRIORITY);
      var code := FindFirstIntCode(mask);
      if code.None? {
        return false;
      }
      EnterLevel(x, 0x8000_0000 + code.value, 0, true, code.value);
      ok := true;
    }
  }
}
