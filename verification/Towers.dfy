/** Towers of Hanoi on a shared node pool (tests/programs/towers.c): the pure game first, then the
    program's linked lists proved against it. */
module Hanoi {
  import opened Words

  // ---------------------------------------------------------------------------
  // The game: pegs P, discs as numbers, top of a peg first
  // ---------------------------------------------------------------------------

  datatype Move<P> = Move(from: P, to: P)

  type Config<!P> = map<P, seq<int>>

  predicate Ascending(s: seq<int>) {
    forall i, j | 0 <= i < j < |s| :: s[i] < s[j]
  }

  predicate Possible<P>(c: Config<P>, m: Move<P>) {
    m.from in c && m.to in c && m.from != m.to && c[m.from] != []
  }

  /** A larger disc never goes on a smaller one. */
  predicate Legal<P>(c: Config<P>, m: Move<P>) {
    Possible(c, m) && (c[m.to] != [] ==> c[m.from][0] < c[m.to][0])
  }

  function Apply<P>(c: Config<P>, m: Move<P>): Config<P>
    requires Possible(c, m)
  {
    c[m.from := c[m.from][1..]][m.to := [c[m.from][0]] + c[m.to]]
  }

  predicate AllPossible<P>(c: Config<P>, ms: seq<Move<P>>)
    decreases |ms|
  {
    ms == [] || (Possible(c, ms[0]) && AllPossible(Apply(c, ms[0]), ms[1..]))
  }

  predicate AllLegal<P>(c: Config<P>, ms: seq<Move<P>>)
    decreases |ms|
  {
    ms == [] || (Legal(c, ms[0]) && AllLegal(Apply(c, ms[0]), ms[1..]))
  }

  function Run<P>(c: Config<P>, ms: seq<Move<P>>): Config<P>
    requires AllPossible(c, ms)
    decreases |ms|
  {
    if ms == [] then c else Run(Apply(c, ms[0]), ms[1..])
  }

  /** The moves of the recursion of towers_solve_h. */
  function Moves<P>(n: nat, start: P, temp: P, dest: P): seq<Move<P>>
    requires n >= 1
  {
    if n == 1 then [Move(start, dest)]
    else Moves(n - 1, start, dest, temp) + Moves(1, start, temp, dest) + Moves(n - 1, temp, start, dest)
  }

  lemma {:induction false} RunSplits<P>(c: Config<P>, a: seq<Move<P>>, b: seq<Move<P>>)
    requires AllPossible(c, a) && AllPossible(Run(c, a), b)
    ensures AllPossible(c, a + b) && Run(c, a + b) == Run(Run(c, a), b)
    decreases |a|
  {
    if a == [] {
      assert a + b == b;
    } else {
      assert (a + b)[1..] == a[1..] + b;
      RunSplits(Apply(c, a[0]), a[1..], b);
    }
  }

  lemma {:induction false} LegalSplits<P>(c: Config<P>, a: seq<Move<P>>, b: seq<Move<P>>)
    requires AllLegal(c, a) && AllPossible(c, a) && AllLegal(Run(c, a), b)
    ensures AllLegal(c, a + b)
    decreases |a|
  {
    if a == [] {
      assert a + b == b;
    } else {
      assert (a + b)[1..] == a[1..] + b;
      LegalSplits(Apply(c, a[0]), a[1..], b);
    }
  }

  /** Three different pegs of a configuration, at least n discs on the first. */
  predicate Setting<P>(c: Config<P>, n: nat, start: P, temp: P, dest: P) {
    && n >= 1 && start in c && temp in c && dest in c
    && start != temp && start != dest && temp != dest
    && |c[start]| >= n
  }

  function Moved<P>(c: Config<P>, n: nat, start: P, dest: P): Config<P>
    requires start in c && dest in c && |c[start]| >= n
  {
    c[start := c[start][n..]][dest := c[start][..n] + c[dest]]
  }

  /** The moves of the recursion carry the top n discs over in order, whatever the discs are. */
  lemma {:induction false} MovesCarryOver<P>(c: Config<P>, n: nat, start: P, temp: P, dest: P)
    requires Setting(c, n, start, temp, dest)
    ensures AllPossible(c, Moves(n, start, temp, dest))
    ensures Run(c, Moves(n, start, temp, dest)) == Moved(c, n, start, dest)
    decreases n
  {
    if n == 1 {
      assert Run(c, Moves(1, start, temp, dest)) == Apply(c, Move(start, dest));
      assert c[start][..1] == [c[start][0]];
    } else {
      var first, middle, last := Moves(n - 1, start, dest, temp), Moves(1, start, temp, dest),
          Moves(n - 1, temp, start, dest);
      MovesCarryOver(c, n - 1, start, dest, temp);
      var c1 := Moved(c, n - 1, start, temp);
      MovesCarryOver(c1, 1, start, temp, dest);
      var c2 := Moved(c1, 1, start, dest);
      MovesCarryOver(c2, n - 1, temp, start, dest);
      RunSplits(c, first, middle);
      RunSplits(c, first + middle, last);
      CarriedInThree(c, n, start, temp, dest);
    }
  }

  lemma CarriedInThree<P>(c: Config<P>, n: nat, start: P, temp: P, dest: P)
    requires Setting(c, n, start, temp, dest) && n > 1
    ensures var c1 := Moved(c, n - 1, start, temp);
            var c2 := Moved(c1, 1, start, dest);
            Moved(c2, n - 1, temp, dest) == Moved(c, n, start, dest)
  {
    var c1 := Moved(c, n - 1, start, temp);
    var c2 := Moved(c1, 1, start, dest);
    assert c2[temp] == c[start][..n - 1] + c[temp];
    assert c2[temp][..n - 1] == c[start][..n - 1];
    assert c2[temp][n - 1..] == c[temp];
    assert c2[start] == c[start][n - 1..][1..] == c[start][n..];
    assert c2[dest] == [c[start][n - 1]] + c[dest];
    assert c[start][..n - 1] + ([c[start][n - 1]] + c[dest]) == c[start][..n] + c[dest];
  }

  lemma {:induction false} MoveCount<P>(n: nat, start: P, temp: P, dest: P)
    requires n >= 1
    ensures |Moves(n, start, temp, dest)| == Pow2(n) - 1
  {
    if n <= 1 {
    } else {
      MoveCount(n - 1, start, dest, temp);
      MoveCount(n - 1, temp, start, dest);
    }
  }

  predicate Fits(top: seq<int>, below: seq<int>) {
    forall i, j | 0 <= i < |top| && 0 <= j < |below| :: top[i] < below[j]
  }

  /** The top n discs are in order; they fit on the destination, and all but the largest of them fit
      on what else the recursion puts them on. */
  predicate Playable<P>(c: Config<P>, n: nat, start: P, temp: P, dest: P) {
    && Setting(c, n, start, temp, dest)
    && Ascending(c[start][..n]) && Fits(c[start][..n], c[dest])
    && Fits(c[start][..n - 1], c[temp]) && Fits(c[start][..n - 1], c[start][n..])
  }

  lemma FirstStagePlayable<P>(c: Config<P>, n: nat, start: P, temp: P, dest: P)
    requires Playable(c, n, start, temp, dest) && n > 1
    ensures Playable(c, n - 1, start, dest, temp)
  {
    var top := c[start][..n];
    assert c[start][..n - 1] == top[..n - 1];
    assert c[start][n - 1..] == [top[n - 1]] + c[start][n..];
  }

  lemma LastStagePlayable<P>(c: Config<P>, n: nat, start: P, temp: P, dest: P)
    requires Playable(c, n, start, temp, dest) && n > 1
    ensures var c1 := Moved(c, n - 1, start, temp);
            Playable(c1, 1, start, temp, dest) && Playable(Moved(c1, 1, start, dest), n - 1, temp, start, dest)
  {
    var top := c[start][..n];
    var c1 := Moved(c, n - 1, start, temp);
    var c2 := Moved(c1, 1, start, dest);
    assert c1[start] == c[start][n - 1..];
    assert c1[start][..1] == [top[n - 1]];
    assert c2[dest] == [top[n - 1]] + c[dest];
    assert c2[temp] == top[..n - 1] + c[temp];
    assert c2[temp][..n - 1] == top[..n - 1];
    assert c2[temp][..n - 2] == top[..n - 2];
    assert c2[temp][n - 1..] == c[temp];
    assert c2[start] == c[start][n..];
    assert c[start][..n - 1] == top[..n - 1];
  }

  /** No move of the recursion puts a larger disc on a smaller one. */
  lemma {:induction false} MovesAreLegal<P>(c: Config<P>, n: nat, start: P, temp: P, dest: P)
    requires Playable(c, n, start, temp, dest)
    ensures AllLegal(c, Moves(n, start, temp, dest))
    decreases n
  {
    if n <= 1 {
    } else {
      hide Playable;
      var first, middle, last := Moves(n - 1, start, dest, temp), Moves(1, start, temp, dest),
          Moves(n - 1, temp, start, dest);
      var c1 := Moved(c, n - 1, start, temp);
      var c2 := Moved(c1, 1, start, dest);
      FirstStagePlayable(c, n, start, temp, dest);
      LastStagePlayable(c, n, start, temp, dest);
      MovesAreLegal(c, n - 1, start, dest, temp);
      MovesCarryOver(c, n - 1, start, dest, temp);
      MovesAreLegal(c1, 1, start, temp, dest);
      MovesCarryOver(c1, 1, start, temp, dest);
      MovesAreLegal(c2, n - 1, temp, start, dest);
      RunSplits(c, first, middle);
      LegalSplits(c, first, middle);
      LegalSplits(c, first + middle, last);
    }
  }

  /** Legal moves keep every peg in order, on the way as at the end. */
  lemma {:induction false} LegalKeepsOrder<P>(c: Config<P>, ms: seq<Move<P>>, k: nat)
    requires AllLegal(c, ms) && AllPossible(c, ms) && (forall p | p in c :: Ascending(c[p])) && k <= |ms|
    ensures AllPossible(c, ms[..k]) && OrderedAfter(c, ms[..k])
    decreases k
  {
    if k == 0 {
    } else {
      assert ms[..k][1..] == ms[1..][..k - 1];
      assert forall p | p in Apply(c, ms[0]) :: Ascending(Apply(c, ms[0])[p]);
      LegalKeepsOrder(Apply(c, ms[0]), ms[1..], k - 1);
    }
  }

  ghost predicate OrderedAfter<P>(c: Config<P>, ms: seq<Move<P>>)
    requires AllPossible(c, ms)
  {
    forall p | p in Run(c, ms) :: Ascending(Run(c, ms)[p])
  }

  // ---------------------------------------------------------------------------
  // The count the program checks is the least possible
  // ---------------------------------------------------------------------------

  ghost predicate ThreePegs<P(!new)>(c: Config<P>, t: P, u: P, v: P) {
    t != u && t != v && u != v && forall p :: p in c <==> p == t || p == u || p == v
  }

  predicate Somewhere<P>(c: Config<P>, k: int) {
    exists p | p in c :: k in c[p]
  }

  /** Discs 1 to n lie on the pegs, each on one of them, in order. */
  predicate Arranged<P>(c: Config<P>, n: nat) {
    && (forall p | p in c :: Ascending(c[p]))
    && (forall k | 1 <= k <= n :: Somewhere(c, k))
    && forall k, p, q | 1 <= k <= n && p in c && q in c && k in c[p] && k in c[q] :: p == q
  }

  /** A lower bound on the moves that bring discs 1 to n to peg t. */
  ghost function Distance<P(!new)>(c: Config<P>, n: nat, t: P, u: P, v: P): int
    requires ThreePegs(c, t, u, v)
  {
    if n == 0 then 0
    else if n in c[t] then Distance(c, n - 1, t, u, v)
    else if n in c[u] then Distance(c, n - 1, v, t, u) + Pow2(n - 1)
    else Distance(c, n - 1, u, t, v) + Pow2(n - 1)
  }

  lemma {:induction false} DistanceTogether<P(!new)>(c: Config<P>, n: nat, t: P, u: P, v: P)
    requires ThreePegs(c, t, u, v) && Arranged(c, n) && forall k | 1 <= k <= n :: k in c[t]
    ensures Distance(c, n, t, u, v) == 0 && Distance(c, n, t, v, u) == 0
    ensures Distance(c, n, u, t, v) == Pow2(n) - 1 && Distance(c, n, u, v, t) == Pow2(n) - 1
  {
    if n == 0 {
    } else {
      DistanceTogether(c, n - 1, t, u, v);
      DistanceTogether(c, n - 1, t, v, u);
    }
  }

  lemma {:induction false} DistanceUnaffected<P(!new)>(c: Config<P>, c': Config<P>, n: nat, t: P, u: P, v: P)
    requires ThreePegs(c, t, u, v) && ThreePegs(c', t, u, v)
    requires forall k, p | 1 <= k <= n && p in c :: k in c[p] <==> k in c'[p]
    ensures Distance(c, n, t, u, v) == Distance(c', n, t, u, v)
  {
    if n == 0 {
    } else {
      DistanceUnaffected(c, c', n - 1, t, u, v);
      DistanceUnaffected(c, c', n - 1, v, t, u);
      DistanceUnaffected(c, c', n - 1, u, t, v);
    }
  }

  lemma MoveMembers<P>(c: Config<P>, m: Move<P>)
    requires Possible(c, m) && Ascending(c[m.from])
    ensures var d, c' := c[m.from][0], Apply(c, m);
            && c'.Keys == c.Keys && d in c[m.from] && d in c'[m.to] && d !in c'[m.from]
            && forall k, p | k != d && p in c :: k in c[p] <==> k in c'[p]
  {
    var d := c[m.from][0];
    assert c[m.from] == [d] + c[m.from][1..];
    assert d !in c[m.from][1..];
  }

  lemma MoveKeepsOrder<P>(c: Config<P>, m: Move<P>)
    requires Legal(c, m) && forall p | p in c :: Ascending(c[p])
    ensures forall p | p in Apply(c, m) :: Ascending(Apply(c, m)[p])
    ensures forall k | k < c[m.from][0] :: k !in c[m.from] && k !in c[m.to]
  {
    assert Ascending(c[m.from]) && Ascending(c[m.to]);
  }

  /** A legal move takes a disc from one peg to another and leaves all other discs in place. */
  lemma MoveRelocates<P>(c: Config<P>, m: Move<P>, n: nat)
    requires Arranged(c, n) && Legal(c, m)
    ensures var d, c' := c[m.from][0], Apply(c, m);
            && c'.Keys == c.Keys && Arranged(c', n)
            && (forall k, p | k != d && p in c :: k in c[p] <==> k in c'[p])
            && d in c[m.from] && d in c'[m.to] && d !in c'[m.from]
            && forall k | k < d :: k !in c[m.from] && k !in c[m.to]
  {
    var d, c' := c[m.from][0], Apply(c, m);
    MoveMembers(c, m);
    MoveKeepsOrder(c, m);
    hide Apply, Ascending;
    forall k | 1 <= k <= n ensures Somewhere(c', k) {
      assert Somewhere(c, k);
      var p :| p in c && k in c[p];
      assert k in c'[if k == d then m.to else p];
    }
  }

  lemma {:induction false} DistanceStep<P(!new)>(c: Config<P>, m: Move<P>, n: nat, t: P, u: P, v: P)
    requires ThreePegs(c, t, u, v) && Arranged(c, n) && Legal(c, m)
    ensures var c' := Apply(c, m);
            ThreePegs(c', t, u, v) && Distance(c', n, t, u, v) >= Distance(c, n, t, u, v) - 1
  {
    var d, c' := c[m.from][0], Apply(c, m);
    MoveRelocates(c, m, n);
    if d > n {
      DistanceUnaffected(c, c', n, t, u, v);
    } else if d < n && n > 0 {
      assert Arranged(c, n - 1);
      DistanceStep(c, m, n - 1, t, u, v);
      DistanceStep(c, m, n - 1, v, t, u);
      DistanceStep(c, m, n - 1, u, t, v);
      hide Arranged, Legal, Apply;
    } else if n > 0 {
      LargestMoves(c, m, n, t, u, v);
    }
  }

  /** Disc n lies on one peg and all smaller ones on another. */
  lemma DistanceOfTwoPiles<P(!new)>(c: Config<P>, n: nat, t: P, u: P, v: P, pile: P, at: P)
    requires ThreePegs(c, t, u, v) && Arranged(c, n) && n >= 1 && at in c && pile in c && at != pile && n in c[at]
    requires forall k | 1 <= k <= n - 1 :: k in c[pile]
    ensures Distance(c, n, t, u, v) ==
              if t == at then Pow2(n - 1) - 1 else if t == pile then 2 * Pow2(n - 1) - 1 else Pow2(n - 1)
  {
    assert Somewhere(c, n);
    assert Arranged(c, n - 1);
    var free := if t != at && t != pile then t else if u != at && u != pile then u else v;
    DistanceTogether(c, n - 1, pile, at, free);
    DistanceTogether(c, n - 1, pile, free, at);
  }

  /** Disc n itself moves: all smaller ones are together on the third peg. */
  lemma LargestMoves<P(!new)>(c: Config<P>, m: Move<P>, n: nat, t: P, u: P, v: P)
    requires ThreePegs(c, t, u, v) && Arranged(c, n) && Legal(c, m) && n >= 1 && c[m.from][0] == n
    ensures var c' := Apply(c, m);
            ThreePegs(c', t, u, v) && Distance(c', n, t, u, v) >= Distance(c, n, t, u, v) - 1
  {
    var c' := Apply(c, m);
    MoveRelocates(c, m, n);
    var third := if t != m.from && t != m.to then t else if u != m.from && u != m.to then u else v;
    forall k | 1 <= k <= n - 1 ensures k in c[third] && k in c'[third] {
      assert Somewhere(c, k);
    }
    DistanceOfTwoPiles(c, n, t, u, v, third, m.from);
    DistanceOfTwoPiles(c', n, t, u, v, third, m.to);
  }

  lemma {:induction false} DistanceIsLowerBound<P(!new)>(c: Config<P>, ms: seq<Move<P>>, n: nat, t: P, u: P, v: P)
    requires ThreePegs(c, t, u, v) && Arranged(c, n) && AllLegal(c, ms) && AllPossible(c, ms)
    ensures ThreePegs(Run(c, ms), t, u, v) && Arranged(Run(c, ms), n)
    ensures Distance(Run(c, ms), n, t, u, v) >= Distance(c, n, t, u, v) - |ms|
    decreases |ms|
  {
    if ms == [] {
    } else {
      MoveRelocates(c, ms[0], n);
      DistanceStep(c, ms[0], n, t, u, v);
      DistanceIsLowerBound(Apply(c, ms[0]), ms[1..], n, t, u, v);
    }
  }

  /** No legal play brings a tower of n discs to another peg in fewer moves than the recursion. */
  lemma MovesAreFewest<P(!new)>(c: Config<P>, ms: seq<Move<P>>, n: nat, start: P, temp: P, dest: P)
    requires n >= 1 && ThreePegs(c, start, temp, dest) && Arranged(c, n) && forall k | 1 <= k <= n :: k in c[start]
    requires AllLegal(c, ms) && AllPossible(c, ms) && dest in Run(c, ms)
               && forall k | 1 <= k <= n :: k in Run(c, ms)[dest]
    ensures |ms| >= |Moves(n, start, temp, dest)|
  {
    DistanceIsLowerBound(c, ms, n, dest, start, temp);
    DistanceTogether(c, n, start, dest, temp);
    DistanceTogether(Run(c, ms), n, dest, start, temp);
    MoveCount(n, start, temp, dest);
  }
}

/** The program: pegs and the free list are chains through one pool of nodes. A node pointer is the
    node's index in the pool; -1 is the null pointer. */
module Towers {
  import opened Words
  import H = Hanoi

  datatype Node = Node(val: int, next: int)

  datatype Owner = A | B | C | Free

  /** A list and what its chain runs through: `nodes` bottom first, `discs` top first. */
  datatype Chain = Chain(head: int, nodes: seq<int>, discs: seq<int>)

  datatype Spot = Spot(owner: Owner, index: nat)

  datatype Chains = Chains(a: Chain, b: Chain, c: Chain, free: Chain)
  {
    function At(o: Owner): Chain {
      match o
      case A => a
      case B => b
      case C => c
      case Free => free
    }

    function With(o: Owner, chain: Chain): Chains {
      match o
      case A => this.(a := chain)
      case B => this.(b := chain)
      case C => this.(c := chain)
      case Free => this.(free := chain)
    }
  }

  /** The pool, the four lists and, for each node, the list and the place it is at. */
  datatype Heap = Heap(pool: seq<Node>, chains: Chains, spots: seq<Spot>)

  function Top(nodes: seq<int>): int {
    if nodes == [] then -1 else nodes[|nodes| - 1]
  }

  /** Following the links from the head visits `nodes` from top to bottom, and then null. */
  predicate Linked(pool: seq<Node>, c: Chain) {
    && c.head == Top(c.nodes) && |c.discs| == |c.nodes|
    && (forall i | 0 <= i < |c.nodes| :: 0 <= c.nodes[i] < |pool| && pool[c.nodes[i]].val == c.discs[|c.nodes| - 1 - i])
    && (c.nodes != [] ==> pool[c.nodes[0]].next == -1)
    && forall i, j | 0 <= i && j == i + 1 < |c.nodes| :: pool[c.nodes[j]].next == c.nodes[i]
  }

  predicate Placed(o: Owner, c: Chain, spots: seq<Spot>) {
    forall i | 0 <= i < |c.nodes| :: 0 <= c.nodes[i] < |spots| && spots[c.nodes[i]] == Spot(o, i)
  }

  predicate Complete(h: Heap) {
    |h.spots| == |h.pool|
  }

  predicate Spotted(h: Heap, x: nat)
    requires Complete(h) && x < |h.spots|
  {
    var s := h.spots[x];
    s.index < |h.chains.At(s.owner).nodes| && h.chains.At(s.owner).nodes[s.index] == x
  }

  predicate Proper(h: Heap, o: Owner)
    requires Complete(h)
  {
    Linked(h.pool, h.chains.At(o)) && Placed(o, h.chains.At(o), h.spots)
  }

  /** The four chains partition the pool. */
  predicate Partitioned(h: Heap) {
    && Complete(h)
    && (forall o: Owner :: Proper(h, o))
    && (forall x | 0 <= x < |h.pool| :: Spotted(h, x))
    && Count(h.chains) == |h.pool|
  }

  function Count(cs: Chains): nat { |cs.a.nodes| + |cs.b.nodes| + |cs.c.nodes| + |cs.free.nodes| }

  /** The top node of one list becomes the top node of another, with a value. */
  function Transfer(h: Heap, from: Owner, to: Owner, val: int): Heap
    requires Complete(h) && Proper(h, from) && h.chains.At(from).nodes != []
  {
    var f, t := h.chains.At(from), h.chains.At(to);
    var x := f.head;
    var shorter := Chain(h.pool[x].next, f.nodes[..|f.nodes| - 1], f.discs[1..]);
    var longer := Chain(x, t.nodes + [x], [val] + t.discs);
    Heap(h.pool[x := Node(val, t.head)], h.chains.With(from, shorter).With(to, longer),
        h.spots[x := Spot(to, |t.nodes|)])
  }

  lemma TransferAt(h: Heap, from: Owner, to: Owner, val: int, o: Owner)
    requires Complete(h) && Proper(h, from) && h.chains.At(from).nodes != [] && from != to
    ensures var f, t := h.chains.At(from), h.chains.At(to);
            Transfer(h, from, to, val).chains.At(o) ==
            if o == from then Chain(h.pool[f.head].next, f.nodes[..|f.nodes| - 1], f.discs[1..])
            else if o == to then Chain(f.head, t.nodes + [f.head], [val] + t.discs)
            else h.chains.At(o)
    ensures Count(Transfer(h, from, to, val).chains) == Count(h.chains)
  {
  }

  lemma ChainKept(pool: seq<Node>, spots: seq<Spot>, o: Owner, c: Chain, x: nat, node: Node, spot: Spot)
    requires |pool| == |spots| && Linked(pool, c) && Placed(o, c, spots) && x < |pool| && spots[x].owner != o
    ensures Linked(pool[x := node], c) && Placed(o, c, spots[x := spot])
  {
    assert forall i | 0 <= i < |c.nodes| :: c.nodes[i] != x;
  }

  lemma ChainShrinks(pool: seq<Node>, spots: seq<Spot>, o: Owner, c: Chain, node: Node, spot: Spot)
    requires |pool| == |spots| && Linked(pool, c) && Placed(o, c, spots) && c.nodes != []
    ensures var c' := Chain(pool[c.head].next, c.nodes[..|c.nodes| - 1], c.discs[1..]);
            Linked(pool[c.head := node], c') && Placed(o, c', spots[c.head := spot])
  {
    var c' := Chain(pool[c.head].next, c.nodes[..|c.nodes| - 1], c.discs[1..]);
    var last := |c.nodes| - 1;
    assert spots[c.head] == Spot(o, last);
    assert forall i | 0 <= i < last :: c.nodes[i] != c.head && c'.discs[last - 1 - i] == c.discs[last - i];
    assert last > 0 ==> pool[c.nodes[last]].next == c.nodes[last - 1];
  }

  lemma ChainGrows(pool: seq<Node>, spots: seq<Spot>, o: Owner, c: Chain, x: nat, val: int)
    requires |pool| == |spots| && Linked(pool, c) && Placed(o, c, spots) && x < |pool| && spots[x].owner != o
    ensures var c' := Chain(x, c.nodes + [x], [val] + c.discs);
            Linked(pool[x := Node(val, c.head)], c') && Placed(o, c', spots[x := Spot(o, |c.nodes|)])
  {
    ChainKept(pool, spots, o, c, x, Node(val, c.head), Spot(o, |c.nodes|));
  }

  lemma TransferKeeps(h: Heap, from: Owner, to: Owner, val: int)
    requires Partitioned(h) && h.chains.At(from).nodes != [] && from != to
    ensures Partitioned(Transfer(h, from, to, val))
  {
    hide Linked, Placed, Chains.At, Chains.With, Count;
    TransferAt(h, from, to, val, from);
    var h' := Transfer(h, from, to, val);
    var f, t := h.chains.At(from), h.chains.At(to);
    var x := f.head;
    HeadSpot(h, from);
    assert Proper(h, to);
    ChainShrinks(h.pool, h.spots, from, f, Node(val, t.head), Spot(to, |t.nodes|));
    ChainGrows(h.pool, h.spots, to, t, x, val);
    forall o: Owner ensures Proper(h', o) {
      TransferAt(h, from, to, val, o);
      if o != from && o != to {
        assert Proper(h, o);
        ChainKept(h.pool, h.spots, o, h.chains.At(o), x, Node(val, t.head), Spot(to, |t.nodes|));
      }
    }
    TransferSpots(h, from, to, val);
  }

  lemma TransferSpots(h: Heap, from: Owner, to: Owner, val: int)
    requires Partitioned(h) && h.chains.At(from).nodes != [] && from != to
    ensures var h' := Transfer(h, from, to, val); Complete(h') && forall y | 0 <= y < |h'.pool| :: Spotted(h', y)
  {
    hide Linked, Placed, Chains.At, Chains.With;
    HeadSpot(h, from);
    var h' := Transfer(h, from, to, val);
    forall y | 0 <= y < |h'.pool| ensures Spotted(h', y) {
      assert Spotted(h, y);
      TransferAt(h, from, to, val, h.spots[y].owner);
      TransferAt(h, from, to, val, to);
    }
  }

  lemma HeadSpot(h: Heap, o: Owner)
    requires Complete(h) && Proper(h, o) && h.chains.At(o).nodes != []
    ensures var c := h.chains.At(o);
            0 <= c.head < |h.pool| && h.spots[c.head] == Spot(o, |c.nodes| - 1) && c.nodes[|c.nodes| - 1] == c.head
  {
  }

  lemma HeadIsTop(h: Heap, o: Owner)
    requires Partitioned(h)
    ensures Proper(h, o) && Complete(h)
    ensures var c := h.chains.At(o);
            && |c.discs| == |c.nodes|
            && (c.nodes != [] ==>
                  && 0 <= c.head < |h.pool| == |h.spots| && c.nodes[|c.nodes| - 1] == c.head
                  && h.pool[c.head].val == c.discs[0])
  {
    assert Proper(h, o);
  }

  predicate LinkedUp(pool: seq<Node>) {
    && pool != [] && pool[|pool| - 1].next == -1
    && forall i | 0 <= i < |pool| - 1 :: pool[i].next == i + 1
  }

  /** The heap at the start: every node on the free list, the first one on top. */
  function FreePool(pool: seq<Node>): Heap {
    var n := |pool|;
    var empty := Chain(-1, [], []);
    var nodes, discs := seq(n, i requires 0 <= i < n => n - 1 - i), seq(n, i requires 0 <= i < n => pool[i].val);
    Heap(pool, Chains(empty, empty, empty, Chain(0, nodes, discs)),
        seq(n, i requires 0 <= i < n => Spot(Free, n - 1 - i)))
  }

  lemma FreePoolPartitioned(pool: seq<Node>)
    requires LinkedUp(pool)
    ensures Partitioned(FreePool(pool)) && |FreePool(pool).chains.free.nodes| == |pool|
  {
    var h := FreePool(pool);
    FreeChain(pool, h.chains.free);
    FreePlaces(pool);
    hide FreePool, Linked, Placed, Spotted;
    assert Proper(h, Free);
    forall o: Owner ensures Proper(h, o) {
      if o != Free { EmptyProper(h, o); }
    }
  }

  lemma FreePlaces(pool: seq<Node>)
    requires LinkedUp(pool)
    ensures var h := FreePool(pool);
            Complete(h) && Placed(Free, h.chains.free, h.spots) && forall x | 0 <= x < |pool| :: Spotted(h, x)
  {
    hide LinkedUp;
  }

  lemma FreeChain(pool: seq<Node>, c: Chain)
    requires LinkedUp(pool) && c.head == 0 && |c.nodes| == |c.discs| == |pool|
    requires forall i | 0 <= i < |pool| :: c.nodes[i] == |pool| - 1 - i && c.discs[i] == pool[i].val
    ensures Linked(pool, c)
  {
  }

  lemma EmptyProper(h: Heap, o: Owner)
    requires Complete(h) && h.chains.At(o) == Chain(-1, [], [])
    ensures Proper(h, o)
  {
  }

  // ---------------------------------------------------------------------------
  // The program's lists, updated in place
  // ---------------------------------------------------------------------------

  class List {
    var size: int
    var head: int
    ghost var nodes: seq<int>
    ghost var discs: seq<int>

    constructor ()
      ensures size == 0 && Contents() == Chain(-1, [], [])
    {
      size, head := 0, -1;
      nodes, discs := [], [];
    }

    ghost function Contents(): Chain
      reads this
    {
      Chain(head, nodes, discs)
    }

    method GetSize() returns (n: int)
      ensures n == size
    {
      n := size;
    }

    /** Forgets whatever the list held. */
    method Init()
      modifies this
      ensures size == 0 && Contents() == Chain(-1, [], [])
    {
      size, head := 0, -1;
      nodes, discs := [], [];
    }
  }

  /** The numbers from lo to hi in order. */
  function Ascent(lo: int, hi: int): (s: seq<int>)
    ensures |s| == if lo > hi then 0 else hi - lo + 1
    ensures forall i | 0 <= i < |s| :: s[i] == lo + i
    decreases hi - lo
  {
    if lo > hi then [] else [lo] + Ascent(lo + 1, hi)
  }

  function AtStart(n: int): H.Config<Owner> { map[A := Ascent(1, n), B := [], C := []] }

  function AtEnd(n: int): H.Config<Owner> { map[A := [], B := [], C := Ascent(1, n)] }

  lemma EmptyPegs(h: Heap)
    requires Partitioned(h)
    ensures h.chains.a.discs == [] ==> h.chains.a == Chain(-1, [], [])
    ensures h.chains.b.discs == [] ==> h.chains.b == Chain(-1, [], [])
    ensures h.chains.c.discs == [] ==> h.chains.c == Chain(-1, [], [])
  {
    assert Proper(h, A) && Proper(h, B) && Proper(h, C);
  }

  class Towers {
    var numDiscs: int
    var numMoves: int
    const pegA: List
    const pegB: List
    const pegC: List
    const free: List
    const pool: array<Node>
    ghost var spots: seq<Spot>
    ghost var log: seq<H.Move<Owner>>

    ghost predicate IsPeg(l: List) { l == pegA || l == pegB || l == pegC }

    ghost function OwnerOf(l: List): Owner { if l == pegA then A else if l == pegB then B else C }

    ghost function Snapshot(): Heap
      reads this, pegA, pegB, pegC, free, pool
    {
      Heap(pool[..], Chains(pegA.Contents(), pegB.Contents(), pegC.Contents(), free.Contents()), spots)
    }

    ghost predicate Valid()
      reads this, pegA, pegB, pegC, free, pool
    {
      && Separate() && Partitioned(Snapshot())
      && pegA.size == |pegA.nodes| && pegB.size == |pegB.nodes| && pegC.size == |pegC.nodes|
    }

    /** The discs on the three pegs. */
    ghost function View(): H.Config<Owner>
      reads pegA, pegB, pegC
    {
      map[A := pegA.discs, B := pegB.discs, C := pegC.discs]
    }

    constructor (n: nat)
      ensures Separate() && pool.Length == n
      ensures fresh(pegA) && fresh(pegB) && fresh(pegC) && fresh(free) && fresh(pool)
      ensures pegA.Contents() == Chain(-1, [], []) && pegB.Contents() == Chain(-1, [], [])
                && pegC.Contents() == Chain(-1, [], [])
    {
      pegA := new List();
      pegB := new List();
      pegC := new List();
      free := new List();
      pool := new Node[n](_ => Node(0, 0));
      numDiscs, numMoves := 0, 0;
    }

    ghost predicate Separate() {
      pegA != pegB && pegA != pegC && pegB != pegC && !IsPeg(free)
    }

    /** Chains the whole pool into the free list, as the main program does it. */
    method Prepare()
      requires Separate() && pool.Length >= 1
      requires pegA.Contents() == Chain(-1, [], []) && pegB.Contents() == Chain(-1, [], [])
                 && pegC.Contents() == Chain(-1, [], [])
      modifies this`spots, free, pool
      ensures Partitioned(Snapshot()) && |free.nodes| == pool.Length
    {
      var n := pool.Length;
      free.Init();
      free.head := 0;
      free.size := n;
      pool[n - 1] := Node(99, -1);
      for i := 0 to n - 1
        modifies pool
        invariant pool[n - 1] == Node(99, -1)
        invariant forall j | 0 <= j < i :: pool[j] == Node(j, j + 1)
      {
        pool[i] := Node(i, i + 1);
      }
      ghost var start := FreePool(pool[..]);
      spots := start.spots;
      free.nodes := start.chains.free.nodes;
      free.discs := start.chains.free.discs;
      FreePoolPartitioned(pool[..]);
    }

    method Push(list: List, val: int)
      requires Valid() && IsPeg(list) && free.nodes != []
      modifies this`spots, list, free, pool
      ensures Valid() && Snapshot() == Transfer(old(Snapshot()), Free, OwnerOf(list), val)
      ensures list.discs == [val] + old(list.discs) && |free.nodes| == |old(free.nodes)| - 1
    {
      hide Partitioned, Proper, Linked, Placed;
      HeadIsTop(Snapshot(), Free);
      TransferKeeps(Snapshot(), Free, OwnerOf(list), val);
      var newNode := free.head;
      free.head := pool[newNode].next;
      pool[newNode] := pool[newNode].(next := list.head);
      list.head := newNode;
      pool[newNode] := pool[newNode].(val := val);
      assert pool[..] == old(pool[..])[newNode := Node(val, old(list.head))];
      list.size := list.size + 1;
      spots := spots[newNode := Spot(OwnerOf(list), |list.nodes|)];
      list.nodes, list.discs := list.nodes + [newNode], [val] + list.discs;
      free.nodes, free.discs := free.nodes[..|free.nodes| - 1], free.discs[1..];
    }

    method Pop(list: List) returns (val: int)
      requires Valid() && IsPeg(list) && list.discs != []
      modifies this`spots, list, free, pool
      ensures Valid() && val == old(list.discs[0]) && old(list.nodes) != []
      ensures Snapshot() == Transfer(old(Snapshot()), OwnerOf(list), Free, val)
      ensures list.discs == old(list.discs[1..]) && |free.nodes| == |old(free.nodes)| + 1
    {
      hide Partitioned, Proper, Linked, Placed;
      HeadIsTop(Snapshot(), OwnerOf(list));
      TransferKeeps(Snapshot(), OwnerOf(list), Free, pool[list.head].val);
      val := pool[list.head].val;
      var freedNode := list.head;
      list.head := pool[freedNode].next;
      pool[freedNode] := pool[freedNode].(next := free.head);
      free.head := freedNode;
      list.size := list.size - 1;
      spots := spots[freedNode := Spot(Free, |free.nodes|)];
      free.nodes, free.discs := free.nodes + [freedNode], [val] + free.discs;
      list.nodes, list.discs := list.nodes[..|list.nodes| - 1], list.discs[1..];
    }

    method Clear(list: List)
      requires Valid() && IsPeg(list)
      modifies this`spots, list, free, pool
      ensures Valid() && list.discs == [] && |free.nodes| == old(|free.nodes| + |list.nodes|)
    {
      hide Partitioned, Linked, Placed, Proper, Transfer;
      HeadIsTop(Snapshot(), OwnerOf(list));
      while list.size > 0
        invariant Valid() && list.size == |list.nodes| == |list.discs|
        invariant |free.nodes| + |list.nodes| == old(|free.nodes| + |list.nodes|)
        decreases list.size
      {
        var _ := Pop(list);
        HeadIsTop(Snapshot(), OwnerOf(list));
      }
    }

    /** Starts a game with n discs on peg A. */
    method Init(n: int)
      requires Separate() && Partitioned(Snapshot()) && pegA.discs == [] && pegB.discs == [] && pegC.discs == []
      requires 0 <= n <= |free.nodes|
      modifies this`numDiscs, this`numMoves, this`spots, this`log, pegA, pegB, pegC, free, pool
      ensures Valid() && numDiscs == n && numMoves == 0 && log == []
      ensures View() == AtStart(n) && |free.nodes| == old(|free.nodes|) - n
    {
      hide Partitioned, Linked, Placed, Proper, Transfer;
      EmptyPegs(Snapshot());
      numDiscs, numMoves, log := n, 0, [];
      pegA.Init();
      pegB.Init();
      pegC.Init();
      for i := 0 to n
        invariant Valid() && numDiscs == n && numMoves == 0 && log == []
        invariant pegA.discs == Ascent(n - i + 1, n) && pegB.discs == [] && pegC.discs == []
        invariant |free.nodes| == old(|free.nodes|) - i
      {
        Push(pegA, n - i);
      }
    }

    method ClearAll()
      requires Valid() && 0 <= numDiscs <= pool.Length
      modifies this, pegA, pegB, pegC, free, pool
      ensures Valid() && numDiscs == old(numDiscs) && numMoves == 0 && log == [] && View() == AtStart(numDiscs)
      ensures |free.nodes| == pool.Length - numDiscs
    {
      hide Linked, Placed, Proper, Transfer;
      Clear(pegA);
      Clear(pegB);
      Clear(pegC);
      EmptyPegs(Snapshot());
      HeadIsTop(Snapshot(), A);
      HeadIsTop(Snapshot(), B);
      HeadIsTop(Snapshot(), C);
      Init(numDiscs);
    }

    /** The last step of the recursion. */
    method MoveOne(start: List, ghost temp: List, dest: List)
      requires Valid() && IsPeg(start) && IsPeg(temp) && IsPeg(dest) && start != temp && start != dest && temp != dest
      requires start.discs != []
      modifies this`numMoves, this`log, this`spots, pegA, pegB, pegC, free, pool
      ensures Valid() && |free.nodes| == old(|free.nodes|)
      ensures start.discs == old(start.discs)[1..] && temp.discs == old(temp.discs)
      ensures dest.discs == old(start.discs)[..1] + old(dest.discs)
      ensures numMoves == old(numMoves) + 1 && log == old(log) + [H.Move(OwnerOf(start), OwnerOf(dest))]
    {
      hide Partitioned, Linked, Placed, Proper, Transfer, Complete;
      HeadIsTop(Snapshot(), OwnerOf(start));
      var val := Pop(start);
      Push(dest, val);
      numMoves := numMoves + 1;
      log := log + [H.Move(OwnerOf(start), OwnerOf(dest))];
    }

    /** Moves the top n discs of start over to dest, in order. */
    method SolveH(n: int, start: List, temp: List, dest: List)
      requires Valid() && IsPeg(start) && IsPeg(temp) && IsPeg(dest) && start != temp && start != dest && temp != dest
      requires 1 <= n <= |start.discs|
      modifies this`numMoves, this`log, this`spots, pegA, pegB, pegC, free, pool
      ensures Valid() && |free.nodes| == old(|free.nodes|)
      ensures start.discs == old(start.discs)[n..] && temp.discs == old(temp.discs)
      ensures dest.discs == old(start.discs)[..n] + old(dest.discs)
      ensures numMoves == old(numMoves) + Pow2(n) - 1
      ensures log == old(log) + H.Moves(n, OwnerOf(start), OwnerOf(temp), OwnerOf(dest))
      decreases n
    {
      hide Partitioned, H.Moves, Pow2;
      MovesUnfold(n, OwnerOf(start), OwnerOf(temp), OwnerOf(dest));
      if n == 1 {
        MoveOne(start, temp, dest);
      } else {
        SolveH(n - 1, start, dest, temp);
        SolveH(1, start, temp, dest);
        SolveH(n - 1, temp, start, dest);
        CarriedOver(old(start.discs), old(temp.discs), old(dest.discs), n);
      }
    }

    method Solve()
      requires Valid() && numDiscs >= 1 && View() == AtStart(numDiscs)
      modifies this`numMoves, this`log, this`spots, pegA, pegB, pegC, free, pool
      ensures Valid() && View() == AtEnd(numDiscs)
      ensures numMoves == old(numMoves) + Pow2(numDiscs) - 1 && log == old(log) + H.Moves(numDiscs, A, B, C)
    {
      hide Partitioned, H.Moves;
      assert View()[A] == Ascent(1, numDiscs) && View()[B] == [] && View()[C] == [];
      SolveH(numDiscs, pegA, pegB, pegC);
      assert Ascent(1, numDiscs)[numDiscs..] == [] && Ascent(1, numDiscs)[..numDiscs] + [] == Ascent(1, numDiscs);
    }

    /** Zero exactly when the game is over: all discs in order on peg C, after the right number of
        moves; else the number of the first check that fails. */
    method Verify() returns (status: int)
      requires Valid() && numDiscs >= 0
      ensures status == 0 <==> View() == AtEnd(numDiscs) && numMoves == Pow2(numDiscs) - 1
      ensures status == 2 <==> pegA.discs != []
      ensures status == 3 <==> pegA.discs == [] && pegB.discs != []
      ensures status == 4 <==> pegA.discs == [] && pegB.discs == [] && |pegC.discs| != numDiscs
      ensures status == 5 <==>
                pegA.discs == [] && pegB.discs == [] && |pegC.discs| == numDiscs && pegC.discs != Ascent(1, numDiscs)
      ensures status == 6 <==>
                pegA.discs == [] && pegB.discs == [] && pegC.discs == Ascent(1, numDiscs)
                    && numMoves != Pow2(numDiscs) - 1
    {
      hide Partitioned, Placed, Proper, Transfer;
      HeadIsTop(Snapshot(), A);
      HeadIsTop(Snapshot(), B);
      HeadIsTop(Snapshot(), C);
      assert Linked(pool[..], pegC.Contents()) by { ProperMeans(Snapshot(), C); }
      assert View()[A] == pegA.discs && View()[B] == pegB.discs && View()[C] == pegC.discs;
      assert AtEnd(numDiscs)[A] == [] && AtEnd(numDiscs)[B] == [] && AtEnd(numDiscs)[C] == Ascent(1, numDiscs);
      var count := 0;
      var sizeA := pegA.GetSize();
      if sizeA != 0 {
        return 2;
      }
      var sizeB := pegB.GetSize();
      if sizeB != 0 {
        return 3;
      }
      var sizeC := pegC.GetSize();
      if sizeC != numDiscs {
        return 4;
      }
      var ptr := pegC.head;
      while ptr != -1
        invariant 0 <= count <= |pegC.nodes| && ptr == Top(pegC.nodes[..|pegC.nodes| - count])
        invariant forall i | 0 <= i < count :: pegC.discs[i] == i + 1
        decreases |pegC.nodes| - count
      {
        count := count + 1;
        if pool[ptr].val != count {
          return 5;
        }
        ptr := pool[ptr].next;
      }
      assert pegC.discs == Ascent(1, numDiscs);
      if numMoves != Pow2(numDiscs) - 1 {
        return 6;
      }
      return 0;
    }

    /** The main program, with or without a first solve that warms the caches. */
    method Play(n: int, preallocate: bool) returns (status: int)
      requires n >= 1 && pool.Length == n && Separate()
      requires pegA.Contents() == Chain(-1, [], []) && pegB.Contents() == Chain(-1, [], [])
                 && pegC.Contents() == Chain(-1, [], [])
      modifies this, pegA, pegB, pegC, free, pool
      ensures status == 0 && log == H.Moves(n, A, B, C)
    {
      hide Partitioned, H.Moves;
      Prepare();
      Init(n);
      if preallocate {
        Solve();
      }
      ClearAll();
      Solve();
      status := Verify();
    }
  }

  lemma ProperMeans(h: Heap, o: Owner)
    requires Complete(h) && Proper(h, o)
    ensures Linked(h.pool, h.chains.At(o))
  {
  }

  /** The moves the program logs solve the puzzle legally, with every peg in order after each move ... */
  lemma PlayIsLegal(n: nat)
    requires n >= 1
    ensures var start, ms := AtStart(n), H.Moves(n, A, B, C);
            && H.AllLegal(start, ms) && H.AllPossible(start, ms) && H.Run(start, ms) == AtEnd(n) && |ms| == Pow2(n) - 1
            && forall k | 0 <= k <= |ms| :: H.AllPossible(start, ms[..k]) && H.OrderedAfter(start, ms[..k])
  {
    hide H.Moves, H.AllLegal, H.AllPossible, H.Run, H.OrderedAfter;
    var start, ms := AtStart(n), H.Moves(n, A, B, C);
    assert start[A] == Ascent(1, n) && start[B] == [] && start[C] == [];
    assert start[A][..n] == Ascent(1, n);
    H.MovesAreLegal(start, n, A, B, C);
    H.MovesCarryOver(start, n, A, B, C);
    H.MoveCount(n, A, B, C);
    assert start[A][n..] == [] && start[A][..n] + start[C] == Ascent(1, n);
    assert forall p | p in start :: H.Ascending(start[p]);
    forall k | 0 <= k <= |ms| ensures H.AllPossible(start, ms[..k]) && H.OrderedAfter(start, ms[..k]) {
      H.LegalKeepsOrder(start, ms, k);
    }
  }

  /** ... and no other legal solution is shorter. */
  lemma PlayIsShortest(n: nat, other: seq<H.Move<Owner>>)
    requires n >= 1
    requires H.AllLegal(AtStart(n), other) && H.AllPossible(AtStart(n), other) && H.Run(AtStart(n), other) == AtEnd(n)
    ensures |other| >= |H.Moves(n, A, B, C)|
  {
    hide H.Moves, H.AllLegal, H.AllPossible, H.Run;
    var start := AtStart(n);
    assert start[A] == Ascent(1, n) && start[B] == [] && start[C] == [];
    assert AtEnd(n)[C] == Ascent(1, n);
    forall k | 1 <= k <= n ensures k in Ascent(1, n) && H.Somewhere(start, k) {
      assert Ascent(1, n)[k - 1] == k;
      assert k in start[A];
    }
    H.MovesAreFewest(start, other, n, A, B, C);
  }

  lemma MovesUnfold(n: nat, start: Owner, temp: Owner, dest: Owner)
    requires n >= 1
    ensures H.Moves(1, start, temp, dest) == [H.Move(start, dest)] && Pow2(1) == 2
    ensures n > 1 ==> Pow2(n) == 2 * Pow2(n - 1)
    ensures n == 1 || H.Moves(n, start, temp, dest) ==
              H.Moves(n - 1, start, dest, temp) + H.Moves(1, start, temp, dest) + H.Moves(n - 1, temp, start, dest)
  {
  }

  lemma CarriedOver(start: seq<int>, temp: seq<int>, dest: seq<int>, n: nat)
    requires 1 < n <= |start|
    ensures var start1, temp1 := start[n - 1..], start[..n - 1] + temp;
            var start2, dest2 := start1[1..], start1[..1] + dest;
            start2 == start[n..] && temp1[n - 1..] == temp && temp1[..n - 1] + dest2 == start[..n] + dest
  {
  }
}
