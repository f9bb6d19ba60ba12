/** Sv32 translation and instruction fetch of the simulator (sim/trace.cc:55-140, 1768-1803;
    section 4.3.2 of the RISC-V Privileged ISA). */
module PageFetch {
  import opened Words
  import T = Traps
  import D = Digits

  const PAGE: int := 0x1000
  const SUPERPAGE: int := 0x40_0000
  const INSTR_PAGE_FAULT: nat := 12

  // ---------------------------------------------------------------------------
  // Translation
  // ---------------------------------------------------------------------------

  datatype Pte = Pte(valid: bool, read: bool, write: bool, exec: bool, user: bool, access: bool, dirty: bool, ppn: nat)

  function PteOf(w: Word): Pte {
    Pte(BitSet(w, 0), BitSet(w, 1), BitSet(w, 2), BitSet(w, 3), BitSet(w, 4), BitSet(w, 6), BitSet(w, 7), w / 0x400)
  }

  /** Physical memory, byte by byte, and the registers translation depends on besides the trap state. */
  datatype Mmu = Mmu(mem: nat -> Byte, mode: bool, ppn: nat, mprv: bool, sum: bool, mxr: bool)

  function Half16(mem: nat -> Byte, a: nat): Half { mem(a) + 0x100 * mem(a + 1) }

  function Word32(mem: nat -> Byte, a: nat): Word { Half16(mem, a) + 0x1_0000 * Half16(mem, a + 2) }

  datatype Access = Access(read: bool, write: bool, exec: bool)

  predicate Translated(m: Mmu, s: T.State) { m.mode && (if m.mprv then s.m.pp else s.priv) != 3 }

  /** A leaf entry with where it puts an address: a 4 MiB superpage or a 4 KiB page. */
  datatype Leaf = Leaf(entry: Pte, size: int)

  /** The table walk; no leaf means a page fault. */
  function Walk(m: Mmu, vaddr: Word): Option<Leaf> {
    var first := PteOf(Word32(m.mem, m.ppn * PAGE + (vaddr / SUPERPAGE) * 4));
    if !first.valid || (!first.read && first.write) then None
    else if first.read || first.exec then
      if first.ppn % 0x400 != 0 then None else Some(Leaf(first, SUPERPAGE))
    else
      var second := PteOf(Word32(m.mem, first.ppn * PAGE + ((vaddr / PAGE) % 0x400) * 4));
      if !second.valid || (!second.read && second.write) || (!second.read && !second.exec) then None
      else Some(Leaf(second, PAGE))
  }

  predicate Permitted(m: Mmu, s: T.State, e: Pte, a: Access) {
    && e.access && (e.dirty || !a.write)
    && !(s.priv == 0 && !e.user)
    && !(s.priv == 1 && e.user && !m.sum)
    && !(a.read && !e.read && (!m.mxr || !e.exec))
    && !(a.exec && !e.exec)
    && !(a.write && !e.write)
  }

  /** The physical address, or a page fault. */
  function Translate(m: Mmu, s: T.State, vaddr: Word, a: Access): Option<nat> {
    if !Translated(m, s) then Some(vaddr)
    else match Walk(m, vaddr)
      case None => None
      case Some(leaf) =>
        if Permitted(m, s, leaf.entry, a) then Some(leaf.entry.ppn * PAGE + vaddr % leaf.size) else None
  }

  // ---------------------------------------------------------------------------
  // Translation on the words of the table
  // ---------------------------------------------------------------------------

  function Flag(b: bool): nat { if b then 1 else 0 }

  /** A word by its bits, the lowest first, and what is above them. */
  function Assembled(bits: seq<bool>, above: nat): nat {
    if bits == [] then above else Flag(bits[0]) + 2 * Assembled(bits[1..], above)
  }

  lemma {:induction false} AssembledBit(bits: seq<bool>, above: nat, k: nat)
    requires k < |bits|
    ensures BitSet(Assembled(bits, above), k) <==> bits[k]
  {
    var rest := Assembled(bits[1..], above);
    if k == 0 {
      assert Pow2(0) == 1 && (Flag(bits[0]) + 2 * rest) % 2 == Flag(bits[0]);
    } else {
      AssembledBit(bits[1..], above, k - 1);
      D.DivideTwice(Assembled(bits, above), 2, Pow2(k - 1));
      assert (Flag(bits[0]) + 2 * rest) / 2 == rest;
    }
  }

  lemma {:induction false} AssembledAbove(bits: seq<bool>, above: nat)
    ensures Assembled(bits, above) / Pow2(|bits|) == above
  {
    if bits == [] {
      assert Pow2(0) == 1;
    } else {
      var rest := Assembled(bits[1..], above);
      AssembledAbove(bits[1..], above);
      D.DivideTwice(Assembled(bits, above), 2, Pow2(|bits| - 1));
      assert (Flag(bits[0]) + 2 * rest) / 2 == rest;
    }
  }

  /** The layout of an entry: eight flags from bit 0, two bits the code ignores, the page number. */
  lemma EntryLayout(e: Pte, global: bool, bit8: bool, bit9: bool, w: nat)
    requires e.ppn < 0x40_0000
    requires w == Flag(e.valid) + 2 * Flag(e.read) + 4 * Flag(e.write) + 8 * Flag(e.exec) + 16 * Flag(e.user)
                  + 32 * Flag(global) + 64 * Flag(e.access) + 128 * Flag(e.dirty) + 256 * Flag(bit8) + 512 * Flag(bit9)
                  + 0x400 * e.ppn
    ensures w < 0x1_0000_0000 && PteOf(w) == e
  {
    var bits := [e.valid, e.read, e.write, e.exec, e.user, global, e.access, e.dirty, bit8, bit9];
    TenBits(e.valid, e.read, e.write, e.exec, e.user, global, e.access, e.dirty, bit8, bit9, e.ppn);
    AssembledBit(bits, e.ppn, 0);
    AssembledBit(bits, e.ppn, 1);
    AssembledBit(bits, e.ppn, 2);
    AssembledBit(bits, e.ppn, 3);
    AssembledBit(bits, e.ppn, 4);
    AssembledBit(bits, e.ppn, 6);
    AssembledBit(bits, e.ppn, 7);
    AssembledAbove(bits, e.ppn);
    TenPlaces();
    hide BitSet, Assembled, Pow2;
  }

  lemma TenPlaces()
    ensures Pow2(10) == 0x400
  {
    Pow2Of32();
    assert Pow2(9) == 2 * Pow2(8);
  }

  lemma TenBits(b0: bool, b1: bool, b2: bool, b3: bool, b4: bool, b5: bool, b6: bool, b7: bool, b8: bool, b9: bool,
                n: nat)
    ensures Assembled([b0, b1, b2, b3, b4, b5, b6, b7, b8, b9], n) ==
              Flag(b0) + 2 * Flag(b1) + 4 * Flag(b2) + 8 * Flag(b3) + 16 * Flag(b4) + 32 * Flag(b5) + 64 * Flag(b6)
              + 128 * Flag(b7) + 256 * Flag(b8) + 512 * Flag(b9) + 0x400 * n
  {
    hide Flag, Assembled;
    NothingMore(n);
    FiveBits(b0, b1, b2, b3, b4, [b5, b6, b7, b8, b9], n);
    FiveBits(b5, b6, b7, b8, b9, [], n);
    assert [b5, b6, b7, b8, b9] + [] == [b5, b6, b7, b8, b9];
    assert [b0, b1, b2, b3, b4] + [b5, b6, b7, b8, b9] == [b0, b1, b2, b3, b4, b5, b6, b7, b8, b9];
  }

  lemma NothingMore(n: nat)
    ensures Assembled([], n) == n
  {
  }

  lemma FiveBits(b0: bool, b1: bool, b2: bool, b3: bool, b4: bool, more: seq<bool>, n: nat)
    ensures Assembled([b0, b1, b2, b3, b4] + more, n) ==
              Flag(b0) + 2 * Flag(b1) + 4 * Flag(b2) + 8 * Flag(b3) + 16 * Flag(b4) + 32 * Assembled(more, n)
  {
    hide Flag, Assembled;
    OneBit(b4, more, n);
    OneBit(b3, [b4] + more, n);
    OneBit(b2, [b3, b4] + more, n);
    OneBit(b1, [b2, b3, b4] + more, n);
    OneBit(b0, [b1, b2, b3, b4] + more, n);
    assert [b3] + ([b4] + more) == [b3, b4] + more && [b2] + ([b3, b4] + more) == [b2, b3, b4] + more;
    assert [b1] + ([b2, b3, b4] + more) == [b1, b2, b3, b4] + more;
    assert [b0] + ([b1, b2, b3, b4] + more) == [b0, b1, b2, b3, b4] + more;
  }

  lemma OneBit(b: bool, more: seq<bool>, n: nat)
    ensures Assembled([b] + more, n) == Flag(b) + 2 * Assembled(more, n)
  {
    assert ([b] + more)[1..] == more;
  }

  /** Four bytes from address a up, the lowest first. */
  ghost predicate WordAt(mem: nat -> Byte, a: nat, w: Word) {
    w == mem(a) + 0x100 * mem(a + 1) + 0x1_0000 * mem(a + 2) + 0x100_0000 * mem(a + 3)
  }

  /** The first table word of an address; a read or execute bit makes it the leaf of a superpage. */
  ghost predicate FirstWord(m: Mmu, v: Word, w: Word) { WordAt(m.mem, m.ppn * 0x1000 + (v / 0x40_0000) * 4, w) }
  ghost predicate SecondWord(m: Mmu, v: Word, first: Word, w: Word) {
    WordAt(m.mem, (first / 0x400) * 0x1000 + (v / 0x1000 % 0x400) * 4, w)
  }
  predicate IsLeaf(w: Word) { BitSet(w, 1) || BitSet(w, 3) }

  /** Bits 0 to 3: valid, and never writable without being readable. */
  predicate WellFormedEntry(w: Word) { BitSet(w, 0) && (BitSet(w, 2) ==> BitSet(w, 1)) }

  /** The access rights of a leaf word, clause by clause. */
  predicate Grants(leaf: Word, priv: nat, sum: bool, mxr: bool, a: Access) {
    && BitSet(leaf, 6)                                            // accessed before
    && (a.write ==> BitSet(leaf, 7))                              // written before
    && (priv == 0 ==> BitSet(leaf, 4))                            // a user page for user level
    && (priv == 1 && BitSet(leaf, 4) ==> sum)                     // or for the supervisor with SUM
    && (a.read ==> BitSet(leaf, 1) || (mxr && BitSet(leaf, 3)))   // readable, or executable with MXR
    && (a.write ==> BitSet(leaf, 2))
    && (a.exec ==> BitSet(leaf, 3))
  }

  lemma WalkOnWords(m: Mmu, v: Word, first: Word, second: Word)
    requires FirstWord(m, v, first) && SecondWord(m, v, first, second)
    ensures var leaf := if IsLeaf(first) then first else second;
            && (Walk(m, v).Some? <==>
                  && WellFormedEntry(first) && (IsLeaf(first) ==> first / 0x400 % 0x400 == 0)
                  && (!IsLeaf(first) ==> WellFormedEntry(second) && IsLeaf(second)))
            && (Walk(m, v).Some? ==>
                  && Walk(m, v).value.entry == PteOf(leaf) && Walk(m, v).value.entry.ppn == leaf / 0x400
                  && Walk(m, v).value.size == if IsLeaf(first) then 0x40_0000 else 0x1000)
  {
    hide BitSet;
    var a1: nat := m.ppn * 0x1000 + (v / 0x40_0000) * 4;
    var a2: nat := (first / 0x400) * 0x1000 + (v / 0x1000 % 0x400) * 4;
    ReadsWord(m.mem, a1, first);
    ReadsWord(m.mem, a2, second);
    hide Word32, WordAt;
  }

  lemma ReadsWord(mem: nat -> Byte, a: nat, w: Word)
    requires WordAt(mem, a, w)
    ensures Word32(mem, a) == w
  {
  }

  lemma PermittedIsGrants(m: Mmu, s: T.State, w: Word, a: Access)
    ensures Permitted(m, s, PteOf(w), a) <==> Grants(w, s.priv, m.sum, m.mxr, a)
  {
    hide BitSet;
  }

  /** Translation succeeds exactly where the words of the table allow the access, and then gives the
      page number of the leaf with the offset. */
  lemma TranslateOnWords(m: Mmu, s: T.State, v: Word, a: Access, first: Word, second: Word)
    requires m.mode && (m.mprv ==> s.m.pp != 3) && (!m.mprv ==> s.priv != 3)
    requires FirstWord(m, v, first) && SecondWord(m, v, first, second)
    ensures var leaf := if IsLeaf(first) then first else second;
            Translate(m, s, v, a).Some? <==>
              && WellFormedEntry(first) && (IsLeaf(first) ==> first / 0x400 % 0x400 == 0)
              && (!IsLeaf(first) ==> WellFormedEntry(second) && IsLeaf(second))
              && Grants(leaf, s.priv, m.sum, m.mxr, a)
    ensures Translate(m, s, v, a).Some? ==>
              Translate(m, s, v, a).value ==
                if IsLeaf(first) then (first / 0x400) * 0x1000 + v % 0x40_0000
                else (second / 0x400) * 0x1000 + v % 0x1000
  {
    hide BitSet, Permitted, Grants, Walk, PteOf;
    WalkOnWords(m, v, first, second);
    PermittedIsGrants(m, s, first, a);
    PermittedIsGrants(m, s, second, a);
  }

  /** Without translation, or at machine level, an address is its own. */
  lemma Untranslated(m: Mmu, s: T.State, v: Word, a: Access)
    requires !m.mode || (m.mprv && s.m.pp == 3) || (!m.mprv && s.priv == 3)
    ensures Translate(m, s, v, a) == Some(v)
  {
  }

  lemma SuperpageOfPage(v: Word)
    ensures v / SUPERPAGE == (v / PAGE) / 0x400
  {
  }

  lemma SameWalk(m: Mmu, v: Word, w: Word)
    requires v / PAGE == w / PAGE
    ensures v / SUPERPAGE == w / SUPERPAGE && Walk(m, v) == Walk(m, w)
  {
    hide PteOf, Word32;
    SuperpageOfPage(v);
    SuperpageOfPage(w);
  }

  lemma WalkSize(m: Mmu, v: Word)
    ensures Walk(m, v).Some? ==> Walk(m, v).value.size == PAGE || Walk(m, v).value.size == SUPERPAGE
  {
    hide PteOf, Word32;
  }

  lemma PageOffset(v: Word, w: Word, ppn: nat, size: int)
    requires v / PAGE == w / PAGE && (size == PAGE || size == SUPERPAGE)
    ensures var p, q := ppn * PAGE + v % size, ppn * PAGE + w % size;
            p - v == q - w && p % PAGE == v % PAGE
  {
    InPage(v, w, size);
    Offset(ppn, v % size);
  }

  lemma InPage(v: Word, w: Word, size: int)
    requires v / PAGE == w / PAGE && (size == PAGE || size == SUPERPAGE)
    ensures v % size - v == w % size - w && (v % size) % PAGE == v % PAGE
  {
    if size == SUPERPAGE {
      SuperpageOfPage(v);
      SuperpageOfPage(w);
    }
  }

  lemma Offset(ppn: nat, x: nat)
    ensures (ppn * PAGE + x) % PAGE == x % PAGE
  {
  }

  /** Translation is uniform within a page: two addresses of one page fault together, and otherwise
      keep their distance. */
  lemma UniformInPage(m: Mmu, s: T.State, v: Word, w: Word, a: Access)
    requires v / PAGE == w / PAGE
    ensures var p, q := Translate(m, s, v, a), Translate(m, s, w, a);
            && (p.Some? <==> q.Some?)
            && (p.Some? ==> p.value - v == q.value - w && p.value % PAGE == v % PAGE)
  {
    SameWalk(m, v, w);
    hide Walk, Permitted, Translated;
    WalkSize(m, v);
    if Translated(m, s) && Walk(m, v).Some? {
      PageOffset(v, w, Walk(m, v).value.entry.ppn, Walk(m, v).value.size);
    }
  }

  // ---------------------------------------------------------------------------
  // Fetch
  // ---------------------------------------------------------------------------

  const EXEC: Access := Access(false, false, true)

  datatype Outcome = Fetched(s: T.State, instr: Word, size: nat) | Panic

  /** fetch: a fault enters the handler and tries once more, a second one panics. */
  function Fetch(m: Mmu, s: T.State, doubleFault: bool): Outcome
    decreases if doubleFault then 0 else 1
  {
    match Translate(m, s, s.pc, EXEC)
    case None => Retry(m, s, doubleFault)
    case Some(paddr) =>
      var data := Half16(m.mem, paddr);
      if data % 4 != 3 then Fetched(s, data, 2)
      else if paddr / PAGE == (paddr + 2) / PAGE then Fetched(s, data + 0x1_0000 * Half16(m.mem, paddr + 2), 4)
      else match Translate(m, s, Plus(s.pc, 2), EXEC)
        case None => Retry(m, s, doubleFault)
        case Some(paddr2) => Fetched(s, data + 0x1_0000 * Half16(m.mem, paddr2), 4)
  }

  function Retry(m: Mmu, s: T.State, doubleFault: bool): Outcome
    decreases if doubleFault then 0 else 1, 0
  {
    if doubleFault then Panic else Fetch(m, T.ExceptEnter(s, INSTR_PAGE_FAULT, s.pc), true)
  }

  // The reference: each half-word through its own translation
  function HalfAt(m: Mmu, s: T.State, vaddr: Word): Option<Half> {
    match Translate(m, s, vaddr, EXEC)
    case None => None
    case Some(paddr) => Some(Half16(m.mem, paddr))
  }

  predicate Fetchable(m: Mmu, s: T.State) {
    var low := HalfAt(m, s, s.pc);
    low.Some? && (low.value % 4 == 3 ==> HalfAt(m, s, Plus(s.pc, 2)).Some?)
  }

  function Instruction(m: Mmu, s: T.State): Outcome
    requires Fetchable(m, s)
  {
    var low := HalfAt(m, s, s.pc).value;
    if low % 4 != 3 then Fetched(s, low, 2) else Fetched(s, low + 0x1_0000 * HalfAt(m, s, Plus(s.pc, 2)).value, 4)
  }

  /** Staying inside the physical page is the same as translating the second half-word again. */
  lemma SecondHalf(m: Mmu, s: T.State)
    requires Translate(m, s, s.pc, EXEC).Some?
    ensures var p := Translate(m, s, s.pc, EXEC).value;
            p / PAGE == (p + 2) / PAGE ==> Translate(m, s, Plus(s.pc, 2), EXEC) == Some(p + 2)
  {
    hide Translate;
    var p := Translate(m, s, s.pc, EXEC).value;
    UniformInPage(m, s, s.pc, s.pc, EXEC);
    if p / PAGE == (p + 2) / PAGE {
      SamePage(s.pc, p);
      UniformInPage(m, s, s.pc, Plus(s.pc, 2), EXEC);
    }
  }

  lemma SamePage(v: Word, p: nat)
    requires p / PAGE == (p + 2) / PAGE && p % PAGE == v % PAGE
    ensures Plus(v, 2) == v + 2 && v / PAGE == (v + 2) / PAGE
  {
    assert p % PAGE + 2 < PAGE;
  }

  /** For every page table and pc the fetch delivers exactly the half-words at the translations of pc
      and, for a long instruction, of pc + 2; if one of them faults it delivers those at the handler,
      and it gives up exactly when the handler faults too. */
  lemma FetchIsHalves(m: Mmu, s: T.State)
    ensures Fetch(m, s, true) == if Fetchable(m, s) then Instruction(m, s) else Panic
    ensures var handler := T.ExceptEnter(s, INSTR_PAGE_FAULT, s.pc);
            Fetch(m, s, false) ==
              if Fetchable(m, s) then Instruction(m, s) else if Fetchable(m, handler) then Instruction(m, handler)
                  else Panic
  {
    OneFetch(m, s, true);
    OneFetch(m, s, false);
    OneFetch(m, T.ExceptEnter(s, INSTR_PAGE_FAULT, s.pc), true);
    hide Fetch, Fetchable, Instruction, T.ExceptEnter;
  }

  /** Where a fetch faults, the instruction delivered is the handler's, entered as for an instruction
      page fault (code 12) at the pc. */
  lemma FaultEntersHandler(m: Mmu, s: T.State)
    ensures Fetch(m, s, false).Fetched? && !Fetchable(m, s) ==>
              exists x: T.Level ::
                T.Entered(s, Fetch(m, s, false).s, x, 12, s.pc, s.At(x).tvec - s.At(x).tvec % 4)
  {
    FetchIsHalves(m, s);
    T.ExceptEffect(s, 12, s.pc);
    hide Fetch, Fetchable, HalfAt, T.ExceptEnter, T.Entered;
  }

  lemma OneFetch(m: Mmu, s: T.State, doubleFault: bool)
    ensures Fetch(m, s, doubleFault) == if Fetchable(m, s) then Instruction(m, s) else Retry(m, s, doubleFault)
  {
    hide Translate, Half16, Retry;
    if Translate(m, s, s.pc, EXEC).Some? { SecondHalf(m, s); }
  }

  // ---------------------------------------------------------------------------
  // The simulator's method, on the state it updates
  // ---------------------------------------------------------------------------

  class Fetcher {
    const cpu: T.TraceSimDriver
    const mem: nat -> Byte
    var mode: bool
    var ppn: nat
    var mprv: bool
    var sum: bool
    var mxr: bool

    constructor (cpu: T.TraceSimDriver, mem: nat -> Byte)
      ensures this.cpu == cpu && this.mem == mem
    {
      this.cpu, this.mem := cpu, mem;
      mode, ppn, mprv, sum, mxr := false, 0, false, false, false;
    }

    ghost function Registers(): Mmu
      reads this
    {
      Mmu(mem, mode, ppn, mprv, sum, mxr)
    }

    /** The two levels of the page table. */
    method WalkTable(vaddr: Word) returns (leaf: Option<Leaf>)
      ensures leaf == Walk(Registers(), vaddr)
    {
      hide PteOf, Word32;
      var entry := PteOf(Word32(mem, ppn * PAGE + (vaddr / SUPERPAGE) * 4));
      if !entry.valid || (!entry.read && entry.write) {
        return None;
      }
      if entry.read || entry.exec {
        if entry.ppn % 0x400 != 0 {
          return None;
        }
        return Some(Leaf(entry, SUPERPAGE));
      }
      entry := PteOf(Word32(mem, entry.ppn * PAGE + ((vaddr / PAGE) % 0x400) * 4));
      if !entry.valid || (!entry.read && entry.write) || (!entry.read && !entry.exec) {
        return None;
      }
      return Some(Leaf(entry, PAGE));
    }

    method TranslateVaddr(vaddr: Word, a: Access) returns (paddr: Option<nat>)
      requires cpu.csr.Length == 4096
      ensures paddr == Translate(Registers(), cpu.Snapshot(), vaddr, a)
    {
      hide T.BitsOf, Walk, Permitted;
      WalkSize(Registers(), vaddr);
      var needTrans := mode && (if mprv then cpu.mpp else cpu.priv) != 3;
      if !needTrans {
        return Some(vaddr);
      }
      var leaf := WalkTable(vaddr);
      if leaf.None? {
        return None;
      }
      var allowed := Allows(leaf.value.entry, a);
      if !allowed {
        return None;
      }
      paddr := Some(leaf.value.entry.ppn * PAGE + vaddr % leaf.value.size);
    }

    /** First access, first write and permission checks. */
    method Allows(entry: Pte, a: Access) returns (ok: bool)
      requires cpu.csr.Length == 4096
      ensures ok == Permitted(Registers(), cpu.Snapshot(), entry, a)
    {
      hide T.BitsOf;
      if !entry.access || (!entry.dirty && a.write) {
        return false;
      }
      if (cpu.priv == 0 && !entry.user) || (cpu.priv == 1 && entry.user && !sum) {
        return false;
      }
      if (a.read && !entry.read && (!mxr || !entry.exec)) || (a.exec && !entry.exec) || (a.write && !entry.write) {
        return false;
      }
      ok := true;
    }

    /** Not ok when the simulator panics. */
    method FetchInstr(doubleFault: bool) returns (ok: bool, instr: Word, size: nat)
      requires cpu.csr.Length == 4096
      modifies cpu, cpu.csr
      ensures Fetch(Registers(), old(cpu.Snapshot()), doubleFault) == if ok then Fetched(cpu.Snapshot(), instr, size)
                else Panic
      decreases if doubleFault then 0 else 1
    {
      hide T.BitsOf, T.ExceptEnter, Translate, Half16;
      var paddr := TranslateVaddr(cpu.pc, EXEC);
      if paddr.None? {
        ok, instr, size := FetchAgain(doubleFault);
        return;
      }
      var data := Half16(mem, paddr.value);
      if data % 4 != 3 {
        return true, data, 2;
      }
      var paddr2 := paddr.value + 2;
      if paddr.value / PAGE != paddr2 / PAGE {
        var second := TranslateVaddr(Plus(cpu.pc, 2), EXEC);
        if second.None? {
          ok, instr, size := FetchAgain(doubleFault);
          return;
        }
        paddr2 := second.value;
      }
      return true, data + 0x1_0000 * Half16(mem, paddr2), 4;
    }

    method FetchAgain(doubleFault: bool) returns (ok: bool, instr: Word, size: nat)
      requires cpu.csr.Length == 4096
      modifies cpu, cpu.csr
      ensures Retry(Registers(), old(cpu.Snapshot()), doubleFault) == if ok then Fetched(cpu.Snapshot(), instr, size)
                else Panic
      decreases if doubleFault then 0 else 1, 0
    {
      hide T.BitsOf, T.ExceptEnter, Fetch;
      if doubleFault {
        return false, 0, 0;
      }
      cpu.ExceptionEnter(INSTR_PAGE_FAULT, cpu.pc);
      ok, instr, size := FetchInstr(true);
    }
  }
}
