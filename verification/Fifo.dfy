/** The synchronous ring FIFO (rtl/lib/fifo_1i1o.sv) over a read-old SRAM (rtl/lib/sram_1w1r.sv). */
module Fifo {
  import opened Words

  /** All registers; the depth is 2^k. The data read out is the SRAM's output register. */
  datatype State<T> = State(freeCount: nat, wAddr: nat, rAddr: nat, wAck: bool, rValid: bool, rAck: bool, ram: seq<T>,
      rData: T)
  {
    predicate Full() { freeCount == 0 }

    predicate Empty() { freeCount == |ram| }
  }

  datatype Input<T> = Input(wE: bool, wData: T, rE: bool, flush: bool)

  /** A register of so many bits. */
  function Bits(x: int, width: nat): nat { x % Pow2(width) }

  /** One clock edge. Counters wrap at their widths: k + 1 bits for the count, k for an address. */
  function Next<T>(k: nat, alwaysRead: bool, s: State<T>, i: Input<T>): State<T>
    requires |s.ram| == Pow2(k) && s.wAddr < Pow2(k) && s.rAddr < Pow2(k)
  {
    var wE, rE := i.wE && !s.Full(), i.rE && !s.Empty();
    State(
      if i.flush then Pow2(k)
      else if wE == rE then s.freeCount
      else if rE then Bits(s.freeCount + 1, k + 1)
      else Bits(s.freeCount - 1, k + 1),
      if i.flush then 0 else if wE then Bits(s.wAddr + 1, k) else s.wAddr,
      if i.flush then 0 else if rE then Bits(s.rAddr + 1, k) else s.rAddr,
      !i.flush && wE, !i.flush && !s.Empty(), !i.flush && rE,
      if wE then s.ram[s.wAddr := i.wData] else s.ram,
      if alwaysRead || rE then s.ram[s.rAddr] else s.rData)
  }

  // ---------------------------------------------------------------------------
  // The queue in the ring
  // ---------------------------------------------------------------------------

  /** One place further round a ring of d slots. */
  function Slot(a: int, i: nat, d: nat): int
    requires 0 <= a < d && i <= d
  {
    if a + i < d then a + i else a + i - d
  }

  ghost predicate Consistent<T>(k: nat, s: State<T>) {
    && |s.ram| == Pow2(k) && s.rAddr < Pow2(k) && s.freeCount <= Pow2(k)
    && s.wAddr == Slot(s.rAddr, Pow2(k) - s.freeCount, Pow2(k))
  }

  /** The entries held, oldest first. */
  ghost function Contents<T>(k: nat, s: State<T>): (q: seq<T>)
    requires Consistent(k, s)
    ensures |q| == Pow2(k) - s.freeCount
  {
    seq(Pow2(k) - s.freeCount, i requires 0 <= i < Pow2(k) - s.freeCount => s.ram[Slot(s.rAddr, i, Pow2(k))])
  }

  lemma NextSlot(a: nat, d: nat)
    requires a < d
    ensures (a + 1) % d == Slot(a, 1, d) < d
  {
    if a + 1 < d { QuotientUnique(a + 1, d, 0, a + 1); } else { QuotientUnique(a + 1, d, 1, 0); }
  }

  lemma CountInRange(n: nat, k: nat)
    requires n < Pow2(k + 1)
    ensures n % Pow2(k + 1) == n
  {
    QuotientUnique(n, Pow2(k + 1), 0, n);
  }

  lemma StepConsistent<T>(k: nat, alwaysRead: bool, s: State<T>, i: Input<T>)
    requires Consistent(k, s)
    ensures Consistent(k, Next(k, alwaysRead, s, i))
    ensures var s', wE, rE := Next(k, alwaysRead, s, i), i.wE && s.freeCount > 0, i.rE && s.freeCount < Pow2(k);
            && s'.freeCount ==
                 (if i.flush then Pow2(k) else s.freeCount - (if wE then 1 else 0) + (if rE then 1 else 0))
            && s'.rAddr == (if i.flush then 0 else if rE then Slot(s.rAddr, 1, Pow2(k)) else s.rAddr)
  {
    NextSlot(s.wAddr, Pow2(k));
    NextSlot(s.rAddr, Pow2(k));
    if s.freeCount > 0 { CountInRange(s.freeCount - 1, k); }
    if s.freeCount < Pow2(k) { CountInRange(s.freeCount + 1, k); }
    hide Pow2;
  }

  /** The slot a write goes to holds none of the entries. */
  lemma WrittenSlotIsFree<T>(k: nat, s: State<T>)
    requires Consistent(k, s) && s.freeCount > 0
    ensures forall j | 0 <= j < Pow2(k) - s.freeCount :: Slot(s.rAddr, j, Pow2(k)) != s.wAddr
  {
  }

  /** What one clock does to the queue: a write is taken when there is room, a read when there is
      an entry, both may happen at once, and a flush drops everything. The acknowledged read shows
      the oldest entry. */
  lemma StepRefinesQueue<T>(k: nat, alwaysRead: bool, s: State<T>, i: Input<T>)
    requires Consistent(k, s)
    ensures var s', q := Next(k, alwaysRead, s, i), Contents(k, s);
            && Consistent(k, s')
            && (s'.wAck <==> !i.flush && i.wE && |q| < Pow2(k))
            && (s'.rAck <==> !i.flush && i.rE && |q| > 0)
            && (s'.rValid <==> !i.flush && |q| > 0)
            && Contents(k, s') ==
                 (if i.flush then [] else (if s'.rAck then q[1..] else q) + (if s'.wAck then [i.wData] else []))
            && (s'.rAck || (alwaysRead && s'.rValid) ==> s'.rData == q[0])
  {
    StepConsistent(k, alwaysRead, s, i);
    StepRam(k, alwaysRead, s, i);
    if i.flush {
      assert Contents(k, Next(k, alwaysRead, s, i)) == [];
    } else {
      StepEntries(k, alwaysRead, s, i);
    }
    hide Next;
  }

  lemma StepRam<T>(k: nat, alwaysRead: bool, s: State<T>, i: Input<T>)
    requires Consistent(k, s)
    ensures var s', wE, rE := Next(k, alwaysRead, s, i), i.wE && s.freeCount > 0, i.rE && s.freeCount < Pow2(k);
            && s'.ram == (if wE then s.ram[s.wAddr := i.wData] else s.ram)
            && s'.wAck == (!i.flush && wE) && s'.rAck == (!i.flush && rE)
                && s'.rValid == (!i.flush && s.freeCount < Pow2(k))
            && (alwaysRead || rE ==> s'.rData == s.ram[s.rAddr])
  {
  }

  lemma StepEntries<T>(k: nat, alwaysRead: bool, s: State<T>, i: Input<T>)
    requires Consistent(k, s) && !i.flush && Consistent(k, Next(k, alwaysRead, s, i))
    ensures var s', q := Next(k, alwaysRead, s, i), Contents(k, s);
            && (s'.rAck ==> q != [])
            && Contents(k, s') == (if s'.rAck then q[1..] else q) + (if s'.wAck then [i.wData] else [])
  {
    hide Next, Pow2;
    StepConsistent(k, alwaysRead, s, i);
    StepRam(k, alwaysRead, s, i);
    if s.freeCount > 0 { WrittenSlotIsFree(k, s); }
    var s', d := Next(k, alwaysRead, s, i), Pow2(k);
    var q, q' := Contents(k, s), Contents(k, s');
    var expected := (if s'.rAck then q[1..] else q) + (if s'.wAck then [i.wData] else []);
    forall j | 0 <= j < |q'| ensures q'[j] == expected[j] {
      assert Slot(s'.rAddr, j, d) == Slot(s.rAddr, if s'.rAck then j + 1 else j, d);
    }
    assert q' == expected;
  }

  // ---------------------------------------------------------------------------
  // Whole runs
  // ---------------------------------------------------------------------------

  /** Everything acknowledged since the last flush: data written, data read. */
  datatype History<T> = History(written: seq<T>, read: seq<T>)

  function Record<T>(h: History<T>, i: Input<T>, after: State<T>): History<T> {
    if i.flush then History([], [])
    else History(if after.wAck then h.written + [i.wData] else h.written,
        if after.rAck then h.read + [after.rData] else h.read)
  }

  datatype Traced<T> = Traced(s: State<T>, h: History<T>)

  ghost function Run<T>(k: nat, alwaysRead: bool, s: State<T>, inputs: seq<Input<T>>): (t: Traced<T>)
    requires Consistent(k, s)
    ensures Consistent(k, t.s)
  {
    if inputs == [] then Traced(s, History([], []))
    else
      var before := Run(k, alwaysRead, s, inputs[..|inputs| - 1]);
      var i := inputs[|inputs| - 1];
      StepConsistent(k, alwaysRead, before.s, i);
      var after := Next(k, alwaysRead, before.s, i);
      Traced(after, Record(before.h, i, after))
  }

  /** The empty FIFO after reset. */
  ghost predicate AfterReset<T>(k: nat, s: State<T>) {
    |s.ram| == Pow2(k) && s.freeCount == Pow2(k) && s.wAddr == 0 && s.rAddr == 0 && !s.wAck && !s.rValid && !s.rAck
  }

  /** In every run from reset, the acknowledged reads since the last flush are the acknowledged
      writes since then, each once and in order, short of the entries still held. */
  lemma {:induction false} RunIsQueue<T>(k: nat, alwaysRead: bool, s: State<T>, inputs: seq<Input<T>>)
    requires AfterReset(k, s)
    ensures Consistent(k, s)
    ensures var t := Run(k, alwaysRead, s, inputs); t.h.written == t.h.read + Contents(k, t.s)
  {
    if inputs == [] {
      assert Contents(k, s) == [];
    } else {
      RunIsQueue(k, alwaysRead, s, inputs[..|inputs| - 1]);
      var before, i := Run(k, alwaysRead, s, inputs[..|inputs| - 1]), inputs[|inputs| - 1];
      StepRecorded(k, alwaysRead, before, i);
      hide Consistent, Next, Contents, Pow2;
    }
  }

  lemma StepRecorded<T>(k: nat, alwaysRead: bool, before: Traced<T>, i: Input<T>)
    requires Consistent(k, before.s) && before.h.written == before.h.read + Contents(k, before.s)
    ensures var after := Next(k, alwaysRead, before.s, i);
            Consistent(k, after) && Record(before.h, i, after).written ==
                Record(before.h, i, after).read + Contents(k, after)
  {
    hide Next, Pow2;
    StepRefinesQueue(k, alwaysRead, before.s, i);
    hide Contents, Consistent;
    var after := Next(k, alwaysRead, before.s, i);
    if !i.flush {
      Conserved(before.h.written, before.h.read, Contents(k, before.s), after.rAck,
          if after.wAck then [i.wData] else []);
    }
  }

  lemma Conserved<T>(written: seq<T>, read: seq<T>, q: seq<T>, take: bool, put: seq<T>)
    requires written == read + q && (take ==> q != [])
    ensures written + put == (if take then read + [q[0]] else read) + ((if take then q[1..] else q) + put)
  {
    assert take ==> q == [q[0]] + q[1..];
  }

  // ---------------------------------------------------------------------------
  // The module, clocked in place
  // ---------------------------------------------------------------------------

  class Ring<T> {
    const k: nat
    const alwaysRead: bool
    const blockRam: array<T>
    var freeCount: nat
    var wAddr: nat
    var rAddr: nat
    var wAck: bool
    var rValid: bool
    var rAck: bool
    var ramData: T

    /** Reset; the RAM starts out as zeros. */
    constructor (k: nat, alwaysRead: bool, zero: T)
      ensures this.k == k && this.alwaysRead == alwaysRead && Valid() && fresh(blockRam)
      ensures AfterReset(k, Registers())
    {
      this.k := k;
      this.alwaysRead := alwaysRead;
      blockRam := new T[Pow2(k)](_ => zero);
      freeCount, wAddr, rAddr := Pow2(k), 0, 0;
      wAck, rValid, rAck := false, false, false;
      ramData := zero;
    }

    ghost function Registers(): State<T>
      reads this, blockRam
    {
      State(freeCount, wAddr, rAddr, wAck, rValid, rAck, blockRam[..], ramData)
    }

    ghost predicate Valid()
      reads this, blockRam
    {
      Consistent(k, Registers())
    }

    // The always blocks, each driving its own registers from the wires of the clock edge
    method UpdateAcks(wE: bool, rE: bool, empty: bool, flush: bool)
      modifies this`wAck, this`rValid, this`rAck
      ensures wAck == (wE && !flush) && rValid == (!empty && !flush) && rAck == (rE && !flush)
    {
      if flush {
        wAck, rValid, rAck := false, false, false;
      } else {
        wAck, rValid, rAck := wE, !empty, rE;
      }
    }

    method UpdateCount(wE: bool, rE: bool, flush: bool)
      modifies this`freeCount
      ensures freeCount == if flush then Pow2(k) else if wE == rE then old(freeCount)
                           else Bits(if rE then old(freeCount) + 1 else old(freeCount) - 1, k + 1)
    {
      if flush {
        freeCount := Pow2(k);
      } else if rE && !wE {
        freeCount := Bits(freeCount + 1, k + 1);
      } else if wE && !rE {
        freeCount := Bits(freeCount - 1, k + 1);
      }
    }

    method UpdateAddresses(wE: bool, rE: bool, flush: bool)
      modifies this`wAddr, this`rAddr
      ensures wAddr == if flush then 0 else if wE then Bits(old(wAddr) + 1, k) else old(wAddr)
      ensures rAddr == if flush then 0 else if rE then Bits(old(rAddr) + 1, k) else old(rAddr)
    {
      if flush {
        wAddr, rAddr := 0, 0;
      } else {
        if wE { wAddr := Bits(wAddr + 1, k); }
        if rE { rAddr := Bits(rAddr + 1, k); }
      }
    }

    /** The SRAM: a read at the written address still gets the old entry. */
    method ClockRam(wE: bool, w: nat, data: T, rE: bool, r: nat)
      requires w < blockRam.Length && r < blockRam.Length
      modifies this`ramData, blockRam
      ensures ramData == if rE then old(blockRam[r]) else old(ramData)
      ensures blockRam[..] == if wE then old(blockRam[..])[w := data] else old(blockRam[..])
    {
      if rE { ramData := blockRam[r]; }
      if wE { blockRam[w] := data; }
    }

    method Clock(wE: bool, wData: T, rE: bool, flush: bool)
      requires Valid()
      modifies this, blockRam
      ensures Registers() == Next(k, alwaysRead, old(Registers()), Input(wE, wData, rE, flush))
      ensures Valid()
    {
      StepConsistent(k, alwaysRead, Registers(), Input(wE, wData, rE, flush));
      assert wAddr < blockRam.Length == Pow2(k) && rAddr < blockRam.Length;
      hide Pow2, Consistent, Bits;
      var full, empty := freeCount == 0, freeCount == blockRam.Length;
      var write, read := wE && !full, rE && !empty;
      ClockRam(write, wAddr, wData, alwaysRead || read, rAddr);
      UpdateAcks(write, read, empty, flush);
      UpdateCount(write, read, flush);
      UpdateAddresses(write, read, flush);
    }
  }
}
