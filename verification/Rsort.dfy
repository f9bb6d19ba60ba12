/** The radix sort benchmark (tests/programs/rsort.c): four passes of a counting sort with 256
    buckets, loops unrolled by four. */
module Rsort {
  import opened Words

  const LOG_BASE: nat := 8
  const BASE: nat := 256
  const TYPE_BITS: nat := 32

  // ---------------------------------------------------------------------------
  // Specification: one pass gathers the elements digit by digit
  // ---------------------------------------------------------------------------

  /** `(x >> logExp) % BASE`. */
  function Digit(x: Word, logExp: nat): (d: nat)
    ensures d < BASE
  {
    x / Pow2(logExp) % BASE
  }

  /** The elements with a given digit, in their order. */
  function Bucket(s: seq<Word>, e: nat, d: nat): seq<Word> {
    if |s| == 0 then []
    else Bucket(s[..|s| - 1], e, d) + if Digit(s[|s| - 1], e) == d then [s[|s| - 1]] else []
  }

  /** The elements with a digit below d, ordered by digit and otherwise as before. */
  function Gather(s: seq<Word>, e: nat, d: nat): seq<Word> {
    if d == 0 then [] else Gather(s, e, d - 1) + Bucket(s, e, d - 1)
  }

  function Pass(s: seq<Word>, e: nat): seq<Word> { Gather(s, e, BASE) }

  function Passes(s: seq<Word>, k: nat): seq<Word> {
    if k == 0 then s else Pass(Passes(s, k - 1), LOG_BASE * (k - 1))
  }

  // ---------------------------------------------------------------------------
  // A pass is a stable sort by one digit
  // ---------------------------------------------------------------------------

  lemma {:induction false} BucketMultiset(s: seq<Word>, e: nat, d: nat, x: Word)
    ensures multiset(Bucket(s, e, d))[x] == if Digit(x, e) == d then multiset(s)[x] else 0
  {
    hide Digit;
    if |s| == 0 {
    } else {
      var init, last := s[..|s| - 1], s[|s| - 1];
      assert s == init + [last];
      MultisetOfConcat(init, [last], x);
      BucketMultiset(init, e, d, x);
      MultisetOfConcat(Bucket(init, e, d), if Digit(last, e) == d then [last] else [], x);
    }
  }

  lemma MultisetOfConcat(s: seq<Word>, t: seq<Word>, x: Word)
    ensures multiset(s + t)[x] == multiset(s)[x] + multiset(t)[x]
  {
  }

  lemma {:induction false} GatherMultiset(s: seq<Word>, e: nat, d: nat, x: Word)
    ensures multiset(Gather(s, e, d))[x] == if Digit(x, e) < d then multiset(s)[x] else 0
  {
    hide Digit, Gather, Bucket;
    if d == 0 {
      NothingGathered(s, e);
    } else {
      GatherMultiset(s, e, d - 1, x);
      BucketMultiset(s, e, d - 1, x);
      GatherStep(s, e, d, x);
    }
  }

  lemma NothingGathered(s: seq<Word>, e: nat)
    ensures Gather(s, e, 0) == []
  {
  }

  lemma GatherStep(s: seq<Word>, e: nat, d: nat, x: Word)
    requires d > 0
    ensures multiset(Gather(s, e, d))[x] == multiset(Gather(s, e, d - 1))[x] + multiset(Bucket(s, e, d - 1))[x]
  {
    hide Bucket;
    MultisetOfConcat(Gather(s, e, d - 1), Bucket(s, e, d - 1), x);
  }

  lemma PassPermutes(s: seq<Word>, e: nat)
    ensures multiset(Pass(s, e)) == multiset(s) && |Pass(s, e)| == |s|
  {
    hide Digit;
    forall x: Word ensures multiset(Pass(s, e))[x] == multiset(s)[x] {
      GatherMultiset(s, e, BASE, x);
    }
    hide Pass;
    assert |multiset(Pass(s, e))| == |Pass(s, e)|;
  }

  /** The low `e` bits. */
  function Low(x: Word, e: nat): nat { x % Pow2(e) }

  ghost predicate SortedByLow(s: seq<Word>, e: nat) {
    forall i, j :: 0 <= i < j < |s| ==> Low(s[i], e) <= Low(s[j], e)
  }

  lemma {:induction false} BucketMembers(s: seq<Word>, e: nat, d: nat)
    ensures forall x :: x in Bucket(s, e, d) ==> x in s && Digit(x, e) == d
  {
    hide Digit;
    if |s| == 0 {
    } else {
      BucketMembers(s[..|s| - 1], e, d);
    }
  }

  lemma {:induction false} GatherMembers(s: seq<Word>, e: nat, d: nat)
    ensures forall x :: x in Gather(s, e, d) ==> x in s && Digit(x, e) < d
  {
    hide Digit, Bucket;
    if d == 0 {
    } else {
      GatherMembers(s, e, d - 1);
      BucketMembers(s, e, d - 1);
    }
  }

  lemma {:induction false} BucketStaysSorted(s: seq<Word>, e: nat, d: nat)
    requires SortedByLow(s, e)
    ensures SortedByLow(Bucket(s, e, d), e)
  {
    hide Digit, Low;
    if |s| == 0 {
    } else {
      BucketStaysSorted(s[..|s| - 1], e, d);
      BucketMembers(s[..|s| - 1], e, d);
      assert forall x :: x in s[..|s| - 1] ==> Low(x, e) <= Low(s[|s| - 1], e);
    }
  }

  lemma LowSplits(x: Word, e: nat)
    ensures Low(x, e + LOG_BASE) == Low(x, e) + Pow2(e) * Digit(x, e)
  {
    Pow2Add(e, 8);
    Pow2Of32();
    SplitMod(x, Pow2(e));
  }

  lemma SplitMod(x: nat, p: nat)
    requires p > 0
    ensures x % (p * 256) == x % p + p * (x / p % 256)
  {
    var q: nat, r: nat := x / p, x % p;
    var h: nat, l: nat := q / 256, q % 256;
    Recompose(x, p, q, r, h, l);
    QuotientUnique(x, p * 256, h, r + p * l);
  }

  lemma Recompose(x: nat, p: nat, q: nat, r: nat, h: nat, l: nat)
    requires x == p * q + r && q == 256 * h + l && r < p && l < 256
    ensures x == h * (p * 256) + (r + p * l) && r + p * l < p * 256
  {
    Regroup(p, h, l);
    AtMost255(p, l);
  }

  lemma Regroup(p: nat, h: nat, l: nat)
    ensures p * (256 * h + l) == h * (p * 256) + p * l
  {
  }

  lemma AtMost255(p: nat, l: nat)
    requires l < 256
    ensures p * l <= p * 255
  {
  }

  lemma ScaledOrder(p: nat, dx: nat, dy: nat, lx: nat, ly: nat)
    requires lx < p && dx < dy
    ensures lx + p * dx < ly + p * dy
  {
    assert p * dy == p * (dy - dx - 1) + p + p * dx;
  }

  lemma DigitDecides(x: Word, y: Word, e: nat)
    ensures Digit(x, e) < Digit(y, e) ==> Low(x, e + LOG_BASE) < Low(y, e + LOG_BASE)
    ensures Digit(x, e) == Digit(y, e) && Low(x, e) <= Low(y, e) ==> Low(x, e + LOG_BASE) <= Low(y, e + LOG_BASE)
  {
    LowSplits(x, e);
    LowSplits(y, e);
    assert Low(x, e) < Pow2(e);
    hide Low, Digit, Pow2;
    if Digit(x, e) < Digit(y, e) {
      ScaledOrder(Pow2(e), Digit(x, e), Digit(y, e), Low(x, e), Low(y, e));
    }
  }

  lemma {:induction false} GatherSorts(s: seq<Word>, e: nat, d: nat)
    requires SortedByLow(s, e)
    ensures SortedByLow(Gather(s, e, d), e + LOG_BASE)
  {
    hide Digit, Low, Bucket;
    if d == 0 {
    } else {
      GatherSorts(s, e, d - 1);
      BucketStaysSorted(s, e, d - 1);
      GatherMembers(s, e, d - 1);
      BucketMembers(s, e, d - 1);
      var g, b := Gather(s, e, d - 1), Bucket(s, e, d - 1);
      forall i, j | 0 <= i < j < |g + b| ensures Low((g + b)[i], e + LOG_BASE) <= Low((g + b)[j], e + LOG_BASE) {
        DigitDecides((g + b)[i], (g + b)[j], e);
        if j >= |g| {
          assert (g + b)[j] in b;
          if i < |g| { assert (g + b)[i] in g; } else { assert (g + b)[i] in b; }
        }
      }
    }
  }

  /** After k passes the array is a permutation of the input, stably sorted by its low 8k bits. */
  lemma {:induction false} PassesSort(s: seq<Word>, k: nat)
    ensures multiset(Passes(s, k)) == multiset(s) && |Passes(s, k)| == |s|
    ensures SortedByLow(Passes(s, k), LOG_BASE * k)
  {
    hide Pass;
    if k == 0 {
    } else {
      PassesSort(s, k - 1);
      PassPermutes(Passes(s, k - 1), LOG_BASE * (k - 1));
      PassSorts(Passes(s, k - 1), LOG_BASE * (k - 1));
    }
  }

  lemma PassSorts(s: seq<Word>, e: nat)
    requires SortedByLow(s, e)
    ensures SortedByLow(Pass(s, e), e + LOG_BASE)
  {
    GatherSorts(s, e, BASE);
  }

  lemma WholeWord(x: Word)
    ensures Low(x, 32) == x
  {
    Pow2Of32();
    hide Pow2;
    SmallModulus(x, 0x1_0000_0000);
  }

  lemma FourPassesSort(s: seq<Word>)
    ensures multiset(Passes(s, 4)) == multiset(s) && |Passes(s, 4)| == |s| && Sorted(Passes(s, 4))
  {
    hide Passes, Low;
    PassesSort(s, 4);
    var r := Passes(s, 4);
    forall i, j | 0 <= i < j < |r| ensures r[i] <= r[j] {
      assert Low(r[i], 32) <= Low(r[j], 32);
      WholeWord(r[i]);
      WholeWord(r[j]);
    }
  }

  // ---------------------------------------------------------------------------
  // Where a pass puts each element
  // ---------------------------------------------------------------------------

  function Start(s: seq<Word>, e: nat, d: nat): nat { |Gather(s, e, d)| }

  function Count(s: seq<Word>, e: nat, d: nat): nat { |Bucket(s, e, d)| }

  /** Elements with s[i]'s digit among the first i come before it, and all with a smaller digit. */
  function Place(s: seq<Word>, e: nat, i: nat): nat
    requires i < |s|
  {
    Start(s, e, Digit(s[i], e)) + Count(s[..i], e, Digit(s[i], e))
  }

  lemma {:induction false} StartGrows(s: seq<Word>, e: nat, d: nat, d': nat)
    requires d < d'
    ensures Start(s, e, d) + Count(s, e, d) == Start(s, e, d + 1) <= Start(s, e, d')
    decreases d'
  {
    hide Bucket;
    if d + 1 >= d' {
    } else {
      StartGrows(s, e, d, d' - 1);
    }
  }

  lemma StartBound(s: seq<Word>, e: nat, d: nat)
    requires d <= BASE
    ensures Start(s, e, d) <= |s|
    ensures d < BASE ==> Start(s, e, d) + Count(s, e, d) <= |s|
  {
    PassPermutes(s, e);
    if d < BASE { StartGrows(s, e, d, BASE); }
    hide Gather, Bucket;
  }

  lemma BucketOfNext(s: seq<Word>, e: nat, i: nat, d: nat)
    requires i < |s|
    ensures Bucket(s[..i + 1], e, d) == Bucket(s[..i], e, d) + if Digit(s[i], e) == d then [s[i]] else []
  {
    hide Digit;
    assert s[..i + 1][..i] == s[..i];
  }

  lemma {:induction false} BucketPrefix(s: seq<Word>, e: nat, i: nat, j: nat, d: nat)
    requires i <= j <= |s|
    ensures Bucket(s[..i], e, d) <= Bucket(s[..j], e, d)
    decreases j
  {
    hide Digit;
    if i >= j {
    } else {
      BucketPrefix(s, e, i, j - 1, d);
      BucketOfNext(s, e, j - 1, d);
      hide Bucket;
    }
  }

  /** s[i] is the element of its bucket that the count of its equals before it selects. */
  lemma OwnSlot(s: seq<Word>, e: nat, i: nat)
    requires i < |s|
    ensures var d := Digit(s[i], e);
            Count(s[..i], e, d) < Count(s, e, d) && Bucket(s, e, d)[Count(s[..i], e, d)] == s[i]
    ensures Count(s[..i + 1], e, Digit(s[i], e)) == Count(s[..i], e, Digit(s[i], e)) + 1
    ensures forall d: nat :: d != Digit(s[i], e) ==> Count(s[..i + 1], e, d) == Count(s[..i], e, d)
  {
    hide Digit;
    var d := Digit(s[i], e);
    assert s[..|s|] == s;
    BucketOfNext(s, e, i, d);
    BucketPrefix(s, e, i + 1, |s|, d);
    forall d: nat | d != Digit(s[i], e) ensures Count(s[..i + 1], e, d) == Count(s[..i], e, d) {
      BucketOfNext(s, e, i, d);
    }
    hide Bucket;
  }

  // ---------------------------------------------------------------------------
  // The two states of the bucket counters, and of the scratch array
  // ---------------------------------------------------------------------------

  ghost predicate Counted(s: seq<Word>, e: nat, i: nat, b: seq<Word>) {
    |b| == BASE && i <= |s| && forall d :: 0 <= d < BASE ==> b[d] == Count(s[..i], e, d)
  }

  /** b[d] is one past the slot of the last element with digit d among the first i. */
  ghost predicate Pointing(s: seq<Word>, e: nat, i: nat, b: seq<Word>) {
    |b| == BASE && i <= |s| && forall d :: 0 <= d < BASE ==> b[d] == Start(s, e, d) + Count(s[..i], e, d)
  }

  /** Slot k of bucket d holds what the gathered sequence has there. */
  ghost predicate InPlace(s: seq<Word>, e: nat, d: nat, k: nat, t: seq<Word>) {
    && k < Count(s, e, d) && Start(s, e, d) + k < |s| <= |t|
    && t[Start(s, e, d) + k] == Bucket(s, e, d)[k]
  }

  /** The elements from i on are in their places. */
  ghost predicate Placed(s: seq<Word>, e: nat, i: nat, t: seq<Word>) {
    && i <= |s| <= |t|
    && forall d: nat, k: nat :: d < BASE && Count(s[..i], e, d) <= k < Count(s, e, d) ==> InPlace(s, e, d, k, t)
  }

  lemma CountStep(s: seq<Word>, e: nat, i: nat, b: seq<Word>, b': seq<Word>)
    requires Counted(s, e, i, b) && i < |s|
    requires b' == b[Digit(s[i], e) := Plus(b[Digit(s[i], e)], 1)] && |s| < 0x1_0000_0000
    ensures Counted(s, e, i + 1, b')
  {
    OwnSlot(s, e, i);
    StartBound(s, e, Digit(s[i], e));
    hide Digit, Bucket, Gather, Start;
  }

  lemma PointStep(s: seq<Word>, e: nat, i: nat, b: seq<Word>, b': seq<Word>)
    requires Pointing(s, e, i + 1, b) && i < |s|
    requires b' == b[Digit(s[i], e) := Plus(b[Digit(s[i], e)], 0xffff_ffff)]
    ensures Pointing(s, e, i, b') && b[Digit(s[i], e)] == Place(s, e, i) + 1
  {
    OwnSlot(s, e, i);
    hide Digit, Bucket, Gather;
  }

  lemma PlacesDiffer(s: seq<Word>, e: nat, i: nat, d: nat, k: nat)
    requires i < |s| && d < BASE && Count(s[..i + 1], e, d) <= k < Count(s, e, d)
    ensures Start(s, e, d) + k != Place(s, e, i)
  {
    OwnSlot(s, e, i);
    var own := Digit(s[i], e);
    if d < own { StartGrows(s, e, d, own); }
    if own < d { StartGrows(s, e, own, d); }
    hide Digit, Bucket, Gather;
  }

  lemma PlaceStep(s: seq<Word>, e: nat, i: nat, t: seq<Word>)
    requires Placed(s, e, i + 1, t) && i < |s|
    ensures Place(s, e, i) < |s| && Placed(s, e, i, t[Place(s, e, i) := s[i]])
  {
    hide Digit, Bucket, Gather, Start, Count;
    var own := Digit(s[i], e);
    OwnSlotPlace(s, e, i);
    var t' := t[Place(s, e, i) := s[i]];
    forall d: nat, k: nat | d < BASE && Count(s[..i], e, d) <= k < Count(s, e, d)
      ensures InPlace(s, e, d, k, t')
    {
      if d != own || k != Count(s[..i], e, own) {
        assert InPlace(s, e, d, k, t);
        PlacesDiffer(s, e, i, d, k);
      }
    }
  }

  lemma OwnSlotPlace(s: seq<Word>, e: nat, i: nat)
    requires i < |s|
    ensures var d := Digit(s[i], e);
            && Place(s, e, i) < |s| && Count(s[..i], e, d) < Count(s, e, d)
            && |Bucket(s, e, d)| == Count(s, e, d) && Bucket(s, e, d)[Count(s[..i], e, d)] == s[i]
            && Place(s, e, i) == Start(s, e, d) + Count(s[..i], e, d)
    ensures Count(s[..i + 1], e, Digit(s[i], e)) == Count(s[..i], e, Digit(s[i], e)) + 1
    ensures forall d: nat :: d != Digit(s[i], e) ==> Count(s[..i + 1], e, d) == Count(s[..i], e, d)
  {
    OwnSlot(s, e, i);
    StartBound(s, e, Digit(s[i], e));
    hide Digit, Bucket, Gather;
  }

  lemma {:induction false} AllPlacedPrefix(s: seq<Word>, e: nat, t: seq<Word>, d: nat)
    requires Placed(s, e, 0, t) && d <= BASE
    ensures Start(s, e, d) <= |t| && t[..Start(s, e, d)] == Gather(s, e, d)
  {
    if d == 0 {
    } else {
      AllPlacedPrefix(s, e, t, d - 1);
      StartBound(s, e, d);
      AppendBucket(s, e, t, d - 1);
    }
  }

  lemma AppendBucket(s: seq<Word>, e: nat, t: seq<Word>, d: nat)
    requires Placed(s, e, 0, t) && d < BASE && Start(s, e, d + 1) <= |t|
    requires t[..Start(s, e, d)] == Gather(s, e, d)
    ensures t[..Start(s, e, d + 1)] == Gather(s, e, d) + Bucket(s, e, d)
  {
    var a := Start(s, e, d);
    assert Start(s, e, d + 1) == a + Count(s, e, d);
    assert s[..0] == [] && Count(s[..0], e, d) == 0;
    hide Digit, Bucket, Gather, Start;
    forall k: nat | k < Count(s, e, d) ensures t[a..a + Count(s, e, d)][k] == Bucket(s, e, d)[k] {
      assert InPlace(s, e, d, k, t);
    }
    assert t[..a + Count(s, e, d)] == t[..a] + t[a..a + Count(s, e, d)];
  }

  lemma AllPlaced(s: seq<Word>, e: nat, t: seq<Word>)
    requires Placed(s, e, 0, t)
    ensures t[..|s|] == Pass(s, e)
  {
    AllPlacedPrefix(s, e, t, BASE);
    PassPermutes(s, e);
  }

  lemma NonePlaced(s: seq<Word>, e: nat, t: seq<Word>)
    requires |s| <= |t|
    ensures Placed(s, e, |s|, t)
  {
    assert s[..|s|] == s;
  }

  // ---------------------------------------------------------------------------
  // The code
  // ---------------------------------------------------------------------------

  method FetchAdd(a: array<Word>, i: nat, inc: Word) returns (ori: Word)
    requires i < a.Length
    modifies a
    ensures ori == old(a[i]) && a[..] == old(a[..])[i := Plus(old(a[i]), inc)]
  {
    ori := a[i];
    a[i] := Plus(a[i], inc);
  }

  /** Count one element. */
  method CountElement(bucket: array<Word>, x: Word, e: nat, ghost s: seq<Word>, ghost i: nat)
    requires bucket.Length == BASE && i < |s| < 0x1_0000_0000 && s[i] == x && Counted(s, e, i, bucket[..])
    modifies bucket
    ensures Counted(s, e, i + 1, bucket[..])
  {
    ghost var b := bucket[..];
    var _ := FetchAdd(bucket, Digit(x, e), 1);
    CountStep(s, e, i, b, bucket[..]);
  }

  method CountDigits(n: Word, arr: array<Word>, bucket: array<Word>, e: nat)
    requires n <= arr.Length && bucket.Length == BASE && arr != bucket
    modifies bucket
    ensures Counted(arr[..n], e, n, bucket[..])
  {
    ghost var s := arr[..n];
    for b := 0 to BASE
      invariant forall d :: 0 <= d < b ==> bucket[d] == 0
    {
      bucket[b] := 0;
    }
    assert Counted(s, e, 0, bucket[..]) by { assert s[..0] == []; }
    hide Counted, Digit;
    var p: int := 0;
    while p < n - 3
      invariant 0 <= p <= n && s == arr[..n] && Counted(s, e, p, bucket[..])
    {
      var a0, a1, a2, a3 := arr[p], arr[p + 1], arr[p + 2], arr[p + 3];
      CountElement(bucket, a0, e, s, p);
      CountElement(bucket, a1, e, s, p + 1);
      CountElement(bucket, a2, e, s, p + 2);
      CountElement(bucket, a3, e, s, p + 3);
      p := p + 4;
    }
    while p < n
      invariant 0 <= p <= n && s == arr[..n] && Counted(s, e, p, bucket[..])
    {
      CountElement(bucket, arr[p], e, s, p);
      p := p + 1;
    }
  }

  /** Counters below i are prefix sums already, the others still counts. */
  ghost predicate Summed(s: seq<Word>, e: nat, i: nat, b: seq<Word>) {
    && |b| == BASE && i <= BASE
    && (forall d :: 0 <= d < i ==> b[d] == Start(s, e, d + 1))
    && (forall d :: i <= d < BASE ==> b[d] == Count(s, e, d))
  }

  lemma SumStep(s: seq<Word>, e: nat, i: nat, b: seq<Word>, prev: Word)
    requires Summed(s, e, i, b) && i < BASE && prev == Start(s, e, i) && |s| < 0x1_0000_0000
    ensures Summed(s, e, i + 1, b[i := Plus(b[i], prev)])
    ensures Plus(b[i], prev) == Plus(prev, b[i]) == Start(s, e, i + 1)
  {
    StartBound(s, e, i);
    StartGrows(s, e, i, i + 1);
    hide Start, Count;
  }

  /** Add the running sum to one counter and the counter to the running sum. */
  method SumElement(bucket: array<Word>, i: nat, prev: Word, ghost s: seq<Word>, ghost e: nat) returns (sum: Word)
    requires bucket.Length == BASE && i < BASE && Summed(s, e, i, bucket[..]) && prev == Start(s, e, i)
               && |s| < 0x1_0000_0000
    modifies bucket
    ensures Summed(s, e, i + 1, bucket[..]) && sum == Start(s, e, i + 1)
  {
    SumStep(s, e, i, bucket[..], prev);
    var ori := FetchAdd(bucket, i, prev);
    sum := Plus(prev, ori);
  }

  lemma CountedIsSummed(s: seq<Word>, e: nat, b: seq<Word>)
    requires Counted(s, e, |s|, b)
    ensures Summed(s, e, 1, b) && b[0] == Start(s, e, 1)
  {
    assert s[..|s|] == s;
    assert Start(s, e, 0) == 0 && Start(s, e, 1) == Count(s, e, 0);
    hide Start, Count;
  }

  lemma SummedIsPointing(s: seq<Word>, e: nat, b: seq<Word>)
    requires Summed(s, e, BASE, b)
    ensures Pointing(s, e, |s|, b)
  {
    assert s[..|s|] == s;
    forall d: nat | d < BASE ensures b[d] == Start(s, e, d) + Count(s, e, d) {
      StartGrows(s, e, d, d + 1);
    }
    hide Start, Count;
  }

  method PrefixSums(bucket: array<Word>, ghost s: seq<Word>, ghost e: nat)
    requires |s| < 0x1_0000_0000 && bucket.Length == BASE && Counted(s, e, |s|, bucket[..])
    modifies bucket
    ensures Pointing(s, e, |s|, bucket[..])
  {
    hide Counted, Summed, Pointing, Start, Count, Gather, Bucket;
    CountedIsSummed(s, e, bucket[..]);
    var prev := bucket[0];
    prev := SumElement(bucket, 1, prev, s, e);
    var b := 2;
    while b < BASE
      invariant b % 2 == 0 && 2 <= b <= BASE
      invariant Summed(s, e, b, bucket[..]) && prev == Start(s, e, b)
    {
      prev := SumElement(bucket, b, prev, s, e);
      prev := SumElement(bucket, b + 1, prev, s, e);
      b := b + 2;
    }
    SummedIsPointing(s, e, bucket[..]);
  }

  /** Take the slot of element i. */
  method TakeSlot(bucket: array<Word>, x: Word, e: nat, ghost s: seq<Word>, ghost i: nat) returns (slot: Word)
    requires bucket.Length == BASE && i < |s| && s[i] == x && Pointing(s, e, i + 1, bucket[..])
    modifies bucket
    ensures Pointing(s, e, i, bucket[..]) && slot == Place(s, e, i) + 1
  {
    ghost var b := bucket[..];
    slot := FetchAdd(bucket, Digit(x, e), 0xffff_ffff);
    PointStep(s, e, i, b, bucket[..]);
  }

  method Distribute(n: Word, arr: array<Word>, scratch: array<Word>, bucket: array<Word>, e: nat)
    requires n <= arr.Length && n <= scratch.Length && arr != scratch && arr != bucket && scratch != bucket
    requires bucket.Length == BASE && Pointing(arr[..n], e, n, bucket[..])
    modifies bucket, scratch
    ensures scratch[..n] == Pass(arr[..n], e) && scratch[n..] == old(scratch[n..])
  {
    hide *;
    ghost var s := arr[..n];
    NonePlaced(s, e, scratch[..]);
    var p: int := n - 1;
    while p >= 3
      invariant -1 <= p < n && s == arr[..n] && scratch[n..] == old(scratch[n..])
      invariant Pointing(s, e, p + 1, bucket[..]) && Placed(s, e, p + 1, scratch[..])
    {
      var a0, a1, a2, a3 := arr[p], arr[p - 1], arr[p - 2], arr[p - 3];
      var s0 := TakeSlot(bucket, a0, e, s, p);
      var s1 := TakeSlot(bucket, a1, e, s, p - 1);
      var s2 := TakeSlot(bucket, a2, e, s, p - 2);
      var s3 := TakeSlot(bucket, a3, e, s, p - 3);
      Put(scratch, s0, a0, e, s, p);
      Put(scratch, s1, a1, e, s, p - 1);
      Put(scratch, s2, a2, e, s, p - 2);
      Put(scratch, s3, a3, e, s, p - 3);
      p := p - 4;
    }
    while p >= 0
      invariant -1 <= p < n && s == arr[..n] && scratch[n..] == old(scratch[n..])
      invariant Pointing(s, e, p + 1, bucket[..]) && Placed(s, e, p + 1, scratch[..])
    {
      var slot := TakeSlot(bucket, arr[p], e, s, p);
      Put(scratch, slot, arr[p], e, s, p);
      p := p - 1;
    }
    AllPlaced(s, e, scratch[..]);
    assert scratch[..][..n] == scratch[..n];
  }

  /** Store element i one below its slot pointer. */
  method Put(scratch: array<Word>, slot: Word, x: Word, e: nat, ghost s: seq<Word>, ghost i: nat)
    requires i < |s| && s[i] == x && Placed(s, e, i + 1, scratch[..]) && slot == Place(s, e, i) + 1
    modifies scratch
    ensures Placed(s, e, i, scratch[..]) && scratch[|s|..] == old(scratch[|s|..])
  {
    PlaceStep(s, e, i, scratch[..]);
    scratch[slot - 1] := x;
    hide Placed;
  }

  /** One digit: count, sum, distribute. */
  method SortPass(n: Word, arr: array<Word>, scratch: array<Word>, bucket: array<Word>, e: nat)
    requires n <= arr.Length && n <= scratch.Length && arr != scratch && arr != bucket && scratch != bucket
    requires bucket.Length == BASE
    modifies bucket, scratch
    ensures scratch[..n] == Pass(arr[..n], e) && scratch[n..] == old(scratch[n..])
  {
    hide *;
    CountDigits(n, arr, bucket, e);
    PrefixSums(bucket, arr[..n], e);
    Distribute(n, arr, scratch, bucket, e);
  }

  /** The array ends up a sorted permutation of its input, for every length and contents; both
      arrays are untouched behind their first n elements. The pass count is even, so the result is
      already in the input array and the final copy is never reached. */
  method Sort(n: Word, arrIn: array<Word>, scratchIn: array<Word>)
    requires n <= arrIn.Length && n <= scratchIn.Length && arrIn != scratchIn
    modifies arrIn, scratchIn
    ensures Sorted(arrIn[..n]) && multiset(arrIn[..n]) == multiset(old(arrIn[..n]))
    ensures arrIn[n..] == old(arrIn[n..]) && scratchIn[n..] == old(scratchIn[n..])
  {
    hide Pass, Sorted;
    ghost var input := arrIn[..n];
    FourPassesSort(input);
    var logExp := 0;
    ghost var k := 0;
    var buckets := new Word[BASE];
    var arr, scratch := arrIn, scratchIn;
    while logExp < TYPE_BITS
      invariant 0 <= k <= 4 && logExp == LOG_BASE * k
      invariant if k % 2 == 0 then arr == arrIn && scratch == scratchIn else arr == scratchIn && scratch == arrIn
      invariant arr[..n] == Passes(input, k)
      invariant arrIn[n..] == old(arrIn[n..]) && scratchIn[n..] == old(scratchIn[n..])
      decreases 4 - k
    {
      SortPass(n, arr, scratch, buckets, logExp);
      arr, scratch := scratch, arr;
      logExp := logExp + LOG_BASE;
      k := k + 1;
    }
    if arr != arrIn {
      assert false;
    }
  }
}
