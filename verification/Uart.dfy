/** The UART receive ring shared by the receiver thread and the guest (sim/uart.cc:79-101, 128-160).
    Every step below is one atomic access of one thread; steps of the two interleave freely. Each
    index is written by one thread only, so its own index is stable for that thread. */
module Uart {
  const RXBUF_SIZE: int := 16384

  type Char = x: int | 0 <= x < 256

  /** Where the receiver thread is with the byte it has read from the pipe. */
  datatype RxState = RxIdle | RxWaiting(ch: Char) | RxRoom(ch: Char) | RxStored(ch: Char)

  /** Where the guest is in a read of the data register. */
  datatype GuestState = GuestIdle | GuestAvail | GuestFetched(ch: Char)

  /** The ring and both threads; `received` and `delivered` record the non-zero bytes read from the
      pipe and those returned to the guest. */
  datatype State = State(buf: seq<Char>, rd: nat, wr: nat, rx: RxState, guest: GuestState, received: seq<Char>,
      delivered: seq<Char>)

  datatype Event =
    | RxRead(ch: Char)   // a byte arrives; a failed read leaves the byte 0
    | RxTest             // compares the indices, waits while the ring is full
    | RxStore            // writes the slot, unless the byte is 0
    | RxAdvance          // moves the write index
    | GuestTest          // compares the indices, returns 0 while the ring is empty
    | GuestFetch         // reads the slot
    | GuestAdvance       // moves the read index and returns the byte

  /** The slot an index stands for. */
  function Slot(i: nat): (k: nat)
    ensures k < RXBUF_SIZE
  {
    i % RXBUF_SIZE
  }

  predicate Enabled(s: State, e: Event) {
    match e
    case RxRead(_) => s.rx.RxIdle?
    case RxTest => s.rx.RxWaiting?
    case RxStore => s.rx.RxRoom?
    case RxAdvance => s.rx.RxStored?
    case GuestTest => s.guest.GuestIdle?
    case GuestFetch => s.guest.GuestAvail?
    case GuestAdvance => s.guest.GuestFetched?
  }

  function Next(s: State, e: Event): State
    requires Enabled(s, e) && |s.buf| == RXBUF_SIZE
  {
    match e
    case RxRead(ch) => s.(rx := RxWaiting(ch), received := if ch != 0 then s.received + [ch] else s.received)
    case RxTest => if s.wr - s.rd >= RXBUF_SIZE then s else s.(rx := RxRoom(s.rx.ch))
    case RxStore =>
      if s.rx.ch == 0 then s.(rx := RxIdle)
      else s.(buf := s.buf[Slot(s.wr) := s.rx.ch], rx := RxStored(s.rx.ch))
    case RxAdvance => s.(wr := s.wr + 1, rx := RxIdle)
    case GuestTest => if s.rd >= s.wr then s else s.(guest := GuestAvail)
    case GuestFetch => s.(guest := GuestFetched(s.buf[Slot(s.rd)]))
    case GuestAdvance => s.(rd := s.rd + 1, guest := GuestIdle, delivered := s.delivered + [s.guest.ch])
  }

  predicate Initial(s: State) {
    s == State(seq(RXBUF_SIZE, i => 0), 0, 0, RxIdle, GuestIdle, [], [])
  }

  /** The byte the receiver still has in hand. */
  function InHand(rx: RxState): seq<Char> {
    if rx.RxIdle? || rx.ch == 0 then [] else [rx.ch]
  }

  /** The bytes still in the ring. */
  function Pending(s: State): seq<Char>
    requires |s.buf| == RXBUF_SIZE && s.rd <= s.wr
  {
    seq(s.wr - s.rd, i requires 0 <= i < s.wr - s.rd => s.buf[Slot(s.rd + i)])
  }

  predicate Invariant(s: State) {
    && |s.buf| == RXBUF_SIZE && 0 <= s.wr - s.rd <= RXBUF_SIZE
    && s.received == s.delivered + Pending(s) + InHand(s.rx)
    && (forall i | 0 <= i < |s.received| :: s.received[i] != 0)
    && (s.rx.RxRoom? || s.rx.RxStored? ==> s.wr - s.rd < RXBUF_SIZE)
    && (s.rx.RxStored? ==> s.rx.ch != 0 && s.buf[Slot(s.wr)] == s.rx.ch)
    && (s.guest.GuestAvail? ==> s.rd < s.wr)
    && (s.guest.GuestFetched? ==> s.rd < s.wr && s.guest.ch == s.buf[Slot(s.rd)])
  }

  lemma SlotsDiffer(i: nat, j: nat)
    requires i < j < i + RXBUF_SIZE
    ensures Slot(i) != Slot(j)
  {
  }

  /** The slot about to be written holds nothing that is still to be read. */
  lemma StoreKeepsInvariant(s: State)
    requires Invariant(s) && s.rx.RxRoom?
    ensures Invariant(Next(s, RxStore))
  {
    hide Slot;
    var s' := Next(s, RxStore);
    forall j: nat | s.rd <= j < s.wr ensures Slot(j) != Slot(s.wr) { SlotsDiffer(j, s.wr); }
    assert Pending(s') == Pending(s);
  }

  lemma ReceiverKeepsInvariant(s: State, e: Event)
    requires Invariant(s) && Enabled(s, e) && (e.RxRead? || e.RxTest? || e.RxAdvance?)
    ensures Invariant(Next(s, e))
  {
    hide Slot;
    var s' := Next(s, e);
    if e.RxAdvance? {
      assert Pending(s') == Pending(s) + [s.rx.ch];
    } else {
      assert Pending(s') == Pending(s);
    }
  }

  lemma GuestKeepsInvariant(s: State, e: Event)
    requires Invariant(s) && Enabled(s, e) && (e.GuestTest? || e.GuestFetch? || e.GuestAdvance?)
    ensures Invariant(Next(s, e))
  {
    hide Slot;
    var s' := Next(s, e);
    if e.GuestAdvance? {
      assert Pending(s) == [s.guest.ch] + Pending(s');
    } else {
      assert Pending(s') == Pending(s);
    }
  }

  lemma StepKeepsInvariant(s: State, e: Event)
    requires Invariant(s) && Enabled(s, e)
    ensures Invariant(Next(s, e))
  {
    if e.RxStore? {
      StoreKeepsInvariant(s);
    } else if e.GuestTest? || e.GuestFetch? || e.GuestAdvance? {
      GuestKeepsInvariant(s, e);
    } else {
      ReceiverKeepsInvariant(s, e);
    }
  }

  /** A run from s to r: each event is enabled when it happens. */
  ghost predicate IsRun(s: State, events: seq<Event>, r: State)
    decreases |events|
  {
    if events == [] then r == s
    else |s.buf| == RXBUF_SIZE && Enabled(s, events[0]) && IsRun(Next(s, events[0]), events[1..], r)
  }

  lemma {:induction false} RunKeepsInvariant(s: State, events: seq<Event>, r: State)
    requires Invariant(s) && IsRun(s, events, r)
    ensures Invariant(r)
    decreases |events|
  {
    hide Invariant;
    if events == [] {
    } else {
      StepKeepsInvariant(s, events[0]);
      RunKeepsInvariant(Next(s, events[0]), events[1..], r);
    }
  }

  /** In every interleaving the guest has read a prefix of the non-zero bytes received, the ring
      never holds more than its size, and when it is drained and the receiver is between bytes
      nothing is missing. */
  lemma EveryInterleaving(s: State, events: seq<Event>, r: State)
    requires Initial(s) && IsRun(s, events, r)
    ensures r.delivered <= r.received && 0 <= r.wr - r.rd <= 16384
    ensures r.rd == r.wr && r.rx.RxIdle? ==> r.delivered == r.received
    ensures forall i | 0 <= i < |r.delivered| :: r.delivered[i] != 0
  {
    assert Invariant(s);
    RunKeepsInvariant(s, events, r);
    assert r.received[..|r.delivered|] == r.delivered;
  }

  /** What the guest returns is the next undelivered byte, whatever the receiver does between the
      three steps of its read. */
  lemma GuestReadsNext(s: State, events: seq<Event>, r: State)
    requires Initial(s) && IsRun(s, events, r) && r.guest.GuestFetched?
    ensures |r.delivered| < |r.received| && r.guest.ch == r.received[|r.delivered|] != 0
  {
    assert Invariant(s);
    RunKeepsInvariant(s, events, r);
    assert Pending(r)[0] == r.guest.ch;
  }

  // ---------------------------------------------------------------------------
  // Nothing gets stuck
  // ---------------------------------------------------------------------------

  /** With a byte in the ring the guest's three steps follow each other and bring it the next one;
      with none its test changes nothing. */
  lemma GuestReads(s: State)
    requires Invariant(s) && s.guest.GuestIdle?
    ensures s.rd == s.wr ==> Next(s, GuestTest) == s
    ensures s.rd < s.wr ==>
              var a := Next(s, GuestTest);
              Enabled(a, GuestFetch) && var b := Next(a, GuestFetch);
              Enabled(b, GuestAdvance) && var c := Next(b, GuestAdvance);
              && |s.delivered| < |s.received| && c.delivered == s.delivered + [s.received[|s.delivered|]]
              && c.rd == s.rd + 1 && c.guest.GuestIdle? && c.wr == s.wr && c.rx == s.rx && c.received == s.received
  {
    if s.rd < s.wr {
      assert Pending(s)[0] == s.buf[Slot(s.rd)];
      assert s.received[|s.delivered|] == Pending(s)[0];
    }
    hide Slot;
  }

  /** Between bytes the receiver can read any byte; it counts as received unless it is zero. */
  lemma ByteArrives(s: State, ch: Char)
    requires Invariant(s) && s.rx.RxIdle?
    ensures Enabled(s, RxRead(ch)) && Next(s, RxRead(ch)).rx == RxWaiting(ch)
    ensures Next(s, RxRead(ch)).received == if ch == 0 then s.received else s.received + [ch]
    ensures Next(s, RxRead(ch)).delivered == s.delivered
  {
  }

  /** The receiver gets room at its next test as soon as the ring is not full, and then its byte is in
      the ring two steps later; a byte of zero is dropped. */
  lemma ReceiverStores(s: State)
    requires Invariant(s) && s.rx.RxWaiting?
    ensures s.wr - s.rd == 16384 ==> Next(s, RxTest) == s
    ensures s.wr - s.rd < 16384 ==>
              var a := Next(s, RxTest);
              Enabled(a, RxStore) && var b := Next(a, RxStore);
              if s.rx.ch == 0 then b == s.(rx := RxIdle)
              else
                Enabled(b, RxAdvance) && var c := Next(b, RxAdvance);
                c.rx.RxIdle? && c.wr == s.wr + 1 && c.rd == s.rd && Pending(c) == Pending(s) + [s.rx.ch]
  {
    if s.wr - s.rd < RXBUF_SIZE && s.rx.ch != 0 {
      var a := Next(s, RxTest);
      StepKeepsInvariant(s, RxTest);
      StepKeepsInvariant(a, RxStore);
      StepKeepsInvariant(Next(a, RxStore), RxAdvance);
      forall j: nat | s.rd <= j < s.wr ensures Slot(j) != Slot(s.wr) { SlotsDiffer(j, s.wr); }
      hide Slot;
      var c := Next(Next(a, RxStore), RxAdvance);
      assert |Pending(c)| == |Pending(s)| + 1;
      assert forall i | 0 <= i < |Pending(s)| :: Pending(c)[i] == Pending(s)[i];
    }
  }

  /** What is still to be done before everything received is delivered. */
  function Undelivered(s: State): int { |s.received| - |s.delivered| }
  function RxLeft(rx: RxState): nat {
    match rx
    case RxIdle => 0
    case RxStored(_) => 1
    case RxRoom(_) => 2
    case RxWaiting(_) => 3
  }
  function GuestLeft(guest: GuestState): nat {
    match guest
    case GuestIdle => 2
    case GuestAvail => 1
    case GuestFetched(_) => 0
  }

  /** A step that makes progress; none is left only when the ring is drained between bytes. */
  function Useful(s: State): Event {
    if s.guest.GuestFetched? then GuestAdvance
    else if s.guest.GuestAvail? then GuestFetch
    else if s.rd < s.wr then GuestTest
    else match s.rx
      case RxIdle => GuestTest
      case RxWaiting(_) => RxTest
      case RxRoom(_) => RxStore
      case RxStored(_) => RxAdvance
  }

  predicate Drained(s: State) { s.guest.GuestIdle? && s.rd == s.wr && s.rx.RxIdle? }

  lemma UsefulHelps(s: State)
    requires Invariant(s) && !Drained(s)
    ensures Enabled(s, Useful(s)) && Next(s, Useful(s)).received == s.received
    ensures var n := Next(s, Useful(s));
            || (0 <= Undelivered(n) < Undelivered(s))
            || (Undelivered(n) == Undelivered(s) && RxLeft(n.rx) < RxLeft(s.rx))
            || (Undelivered(n) == Undelivered(s) && n.rx == s.rx && GuestLeft(n.guest) < GuestLeft(s.guest))
  {
    StepKeepsInvariant(s, Useful(s));
    hide Slot;
  }

  /** From every state that can be reached the two threads can finish: there is a run, with no further
      byte arriving, after which everything received is delivered. */
  lemma {:induction false} EverythingCanArrive(s: State) returns (events: seq<Event>, r: State)
    requires Invariant(s)
    ensures IsRun(s, events, r) && r.received == s.received && r.delivered == r.received && Drained(r)
    decreases Undelivered(s), RxLeft(s.rx), GuestLeft(s.guest)
  {
    if Drained(s) {
      events, r := [], s;
      assert Pending(s) == [];
    } else {
      var e := Useful(s);
      UsefulHelps(s);
      StepKeepsInvariant(s, e);
      var more, last := EverythingCanArrive(Next(s, e));
      events, r := [e] + more, last;
      assert events[1..] == more;
    }
  }

  /** The same from the start: every interleaving can be completed so that nothing is lost. */
  lemma EveryRunCanFinish(s: State, events: seq<Event>, r: State) returns (more: seq<Event>, end: State)
    requires Initial(s) && IsRun(s, events, r)
    ensures IsRun(r, more, end) && end.received == r.received && end.delivered == r.received
  {
    assert Invariant(s);
    RunKeepsInvariant(s, events, r);
    more, end := EverythingCanArrive(r);
  }

  // ---------------------------------------------------------------------------
  // The object both threads share
  // ---------------------------------------------------------------------------

  /** Each method is one atomic step of asyncRx or of read_atomic on the data register. */
  class UniAsyncRxTx {
    const rxbuf: array<Char>
    var rxbufIdxRd: nat
    var rxbufIdxWr: nat
    ghost var rx: RxState
    ghost var guest: GuestState
    ghost var received: seq<Char>
    ghost var delivered: seq<Char>

    constructor ()
      ensures Initial(Shared()) && Invariant(Shared()) && fresh(rxbuf)
    {
      rxbuf := new Char[RXBUF_SIZE](_ => 0);
      rxbufIdxRd, rxbufIdxWr := 0, 0;
      rx, guest, received, delivered := RxIdle, GuestIdle, [], [];
    }

    ghost function Shared(): State
      reads this, rxbuf
    {
      State(rxbuf[..], rxbufIdxRd, rxbufIdxWr, rx, guest, received, delivered)
    }

    method Receive(ch: Char)
      requires Invariant(Shared()) && rx.RxIdle?
      modifies this`rx, this`received
      ensures Shared() == Next(old(Shared()), RxRead(ch)) && Invariant(Shared())
    {
      StepKeepsInvariant(Shared(), RxRead(ch));
      rx := RxWaiting(ch);
      received := if ch != 0 then received + [ch] else received;
    }

    /** One turn of the wait loop: true when there is room. */
    method TestRoom() returns (room: bool)
      requires Invariant(Shared()) && rx.RxWaiting?
      modifies this`rx
      ensures Shared() == Next(old(Shared()), RxTest) && Invariant(Shared())
      ensures room <==> rx.RxRoom?
      ensures room <==> old(rxbufIdxWr - rxbufIdxRd < RXBUF_SIZE)
    {
      StepKeepsInvariant(Shared(), RxTest);
      room := rxbufIdxWr - rxbufIdxRd < RXBUF_SIZE;
      if room { rx := RxRoom(rx.ch); }
    }

    method Store(ch: Char)
      requires Invariant(Shared()) && rx == RxRoom(ch)
      modifies this`rx, rxbuf
      ensures Shared() == Next(old(Shared()), RxStore) && Invariant(Shared())
    {
      StepKeepsInvariant(Shared(), RxStore);
      if ch != 0 {
        rxbuf[Slot(rxbufIdxWr)] := ch;
        rx := RxStored(ch);
      } else {
        rx := RxIdle;
      }
    }

    method AdvanceWrite()
      requires Invariant(Shared()) && rx.RxStored?
      modifies this`rx, this`rxbufIdxWr
      ensures Shared() == Next(old(Shared()), RxAdvance) && Invariant(Shared())
    {
      StepKeepsInvariant(Shared(), RxAdvance);
      rxbufIdxWr := rxbufIdxWr + 1;
      rx := RxIdle;
    }

    method TestAvail() returns (avail: bool)
      requires Invariant(Shared()) && guest.GuestIdle?
      modifies this`guest
      ensures Shared() == Next(old(Shared()), GuestTest) && Invariant(Shared())
      ensures avail <==> guest.GuestAvail?
      ensures avail <==> old(rxbufIdxRd < rxbufIdxWr)
    {
      StepKeepsInvariant(Shared(), GuestTest);
      avail := rxbufIdxRd < rxbufIdxWr;
      if avail { guest := GuestAvail; }
    }

    method Fetch() returns (ch: Char)
      requires Invariant(Shared()) && guest.GuestAvail?
      modifies this`guest
      ensures Shared() == Next(old(Shared()), GuestFetch) && Invariant(Shared()) && guest == GuestFetched(ch)
    {
      StepKeepsInvariant(Shared(), GuestFetch);
      ch := rxbuf[Slot(rxbufIdxRd)];
      guest := GuestFetched(ch);
    }

    method AdvanceRead(ch: Char)
      requires Invariant(Shared()) && guest == GuestFetched(ch)
      modifies this`guest, this`rxbufIdxRd, this`delivered
      ensures Shared() == Next(old(Shared()), GuestAdvance) && Invariant(Shared())
    {
      StepKeepsInvariant(Shared(), GuestAdvance);
      rxbufIdxRd := rxbufIdxRd + 1;
      delivered := delivered + [ch];
      guest := GuestIdle;
    }
  }
}
