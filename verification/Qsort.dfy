/** The quicksort benchmark (tests/programs/qsort.c): median of three, an explicit stack of 50
    slots on which the larger part waits, and insertion sort for small parts. Pointers into the
    array are indices here. */
module Qsort {
  import opened Words
  import D = Digits

  const INSERTION_THRESHOLD: int := 10
  const NSTACK: int := 50

  // ---------------------------------------------------------------------------
  // Sorted up to a set of unfinished parts
  // ---------------------------------------------------------------------------

  /** The part between two pointers of the source: elements l-1 up to but not including ir. */
  datatype Part = Part(l: int, ir: int) {
    predicate Within(n: int) { 1 <= l <= ir + 1 && ir <= n }
    predicate Holds(p: int) { l - 1 <= p < ir }
    function Size(): int { ir - l + 1 }
  }

  predicate Apart(x: Part, y: Part) { x.ir < y.l || y.ir < x.l }

  ghost predicate Together(parts: seq<Part>, p: int, q: int) {
    exists k :: 0 <= k < |parts| && parts[k].Holds(p) && parts[k].Holds(q)
  }

  /** Only elements of one unfinished part may still be out of order. */
  ghost predicate SortedExcept(a: seq<int>, parts: seq<Part>) {
    forall p, q :: 0 <= p < q < |a| ==> a[p] <= a[q] || Together(parts, p, q)
  }

  ghost predicate WellPlaced(parts: seq<Part>, n: int) {
    && (forall k :: 0 <= k < |parts| ==> parts[k].Within(n))
    && (forall j, k :: 0 <= j < k < |parts| ==> Apart(parts[j], parts[k]))
  }

  /** a' differs from a only inside the part, and there only by order. */
  ghost predicate Rearranged(a: seq<int>, a': seq<int>, x: Part) {
    && x.Within(|a|) && |a'| == |a|
    && a'[..x.l - 1] == a[..x.l - 1] && a'[x.ir..] == a[x.ir..]
    && multiset(a'[x.l - 1..x.ir]) == multiset(a[x.l - 1..x.ir])
  }

  lemma RearrangedTransitive(a: seq<int>, b: seq<int>, c: seq<int>, x: Part)
    requires Rearranged(a, b, x) && Rearranged(b, c, x)
    ensures Rearranged(a, c, x)
  {
  }

  lemma RearrangedValues(a: seq<int>, a': seq<int>, x: Part, p: int) returns (r: int)
    requires Rearranged(a, a', x) && 0 <= p < |a|
    ensures 0 <= r < |a| && a'[p] == a[r] && (x.Holds(p) <==> x.Holds(r)) && (!x.Holds(p) ==> r == p)
  {
    if p < x.l - 1 {
      assert a'[..x.l - 1][p] == a[..x.l - 1][p];
      r := p;
    } else if p >= x.ir {
      assert a'[x.ir..][p - x.ir] == a[x.ir..][p - x.ir];
      r := p;
    } else {
      var s, s' := a[x.l - 1..x.ir], a'[x.l - 1..x.ir];
      assert s'[p - (x.l - 1)] in multiset(s');
      assert a'[p] in s;
      var k :| 0 <= k < |s| && s[k] == a'[p];
      r := x.l - 1 + k;
    }
  }

  lemma RearrangedPermutes(a: seq<int>, a': seq<int>, x: Part)
    requires Rearranged(a, a', x)
    ensures multiset(a') == multiset(a)
  {
    assert a == a[..x.l - 1] + a[x.l - 1..x.ir] + a[x.ir..];
    assert a' == a'[..x.l - 1] + a'[x.l - 1..x.ir] + a'[x.ir..];
  }

  /** Working inside one part keeps everything else in order. */
  lemma RefinePart(a: seq<int>, a': seq<int>, rest: seq<Part>, x: Part, news: seq<Part>)
    requires SortedExcept(a, rest + [x]) && WellPlaced(rest + [x], |a|) && Rearranged(a, a', x)
    requires forall p, q :: x.l - 1 <= p < q < x.ir ==> a'[p] <= a'[q] || Together(news, p, q)
    ensures SortedExcept(a', rest + news)
  {
    forall p, q | 0 <= p < q < |a'| ensures a'[p] <= a'[q] || Together(rest + news, p, q) {
      if x.Holds(p) && x.Holds(q) {
        if Together(news, p, q) {
          var k :| 0 <= k < |news| && news[k].Holds(p) && news[k].Holds(q);
          assert (rest + news)[|rest| + k] == news[k];
        }
      } else {
        KeptPair(a, a', rest, x, p, q);
        if Together(rest, p, q) {
          var k :| 0 <= k < |rest| && rest[k].Holds(p) && rest[k].Holds(q);
          assert (rest + news)[k] == rest[k];
        }
      }
    }
  }

  lemma KeptPair(a: seq<int>, a': seq<int>, rest: seq<Part>, x: Part, p: int, q: int)
    requires SortedExcept(a, rest + [x]) && WellPlaced(rest + [x], |a|) && Rearranged(a, a', x)
    requires 0 <= p < q < |a| && !(x.Holds(p) && x.Holds(q))
    ensures a'[p] <= a'[q] || Together(rest, p, q)
  {
    var r := RearrangedValues(a, a', x, p);
    var s := RearrangedValues(a, a', x, q);
    assert r < s;
    if a[r] > a[s] {
      var k :| 0 <= k < |rest + [x]| && (rest + [x])[k].Holds(r) && (rest + [x])[k].Holds(s);
      if k == |rest| {
        assert false;
      } else {
        assert rest[k] == (rest + [x])[k] && (rest + [x])[|rest|] == x && Apart(rest[k], x);
      }
    }
  }

  // ---------------------------------------------------------------------------
  // Pieces of the code
  // ---------------------------------------------------------------------------

  lemma SwapMultiset(s: seq<int>, p: int, q: int)
    requires 0 <= p < |s| && 0 <= q < |s|
    ensures multiset(s[p := s[q]][q := s[p]]) == multiset(s)
  {
  }

  lemma SwapRearranges(a: seq<int>, x: Part, p: int, q: int)
    requires x.Within(|a|) && x.Holds(p) && x.Holds(q)
    ensures Rearranged(a, a[p := a[q]][q := a[p]], x)
  {
    var lo, hi := x.l - 1, x.ir;
    var s := a[lo..hi];
    SwapMultiset(s, p - lo, q - lo);
    SwapSlice(a, lo, hi, p, q);
  }

  lemma SwapSlice(a: seq<int>, lo: int, hi: int, p: int, q: int)
    requires 0 <= lo <= p < hi <= |a| && lo <= q < hi
    ensures var a' := a[p := a[q]][q := a[p]];
            && a'[lo..hi] == a[lo..hi][p - lo := a[lo..hi][q - lo]][q - lo := a[lo..hi][p - lo]]
            && a'[..lo] == a[..lo] && a'[hi..] == a[hi..]
  {
  }

  lemma RearrangedSelf(a: seq<int>, x: Part)
    requires x.Within(|a|)
    ensures Rearranged(a, a, x)
  {
  }

  method Swap(arr: array<int>, p: int, q: int, ghost x: Part)
    requires x.Within(arr.Length) && x.Holds(p) && x.Holds(q)
    modifies arr
    ensures arr[..] == Swapped(old(arr[..]), p, q)
    ensures Rearranged(old(arr[..]), arr[..], x)
  {
    SwapRearranges(arr[..], x, p, q);
    var temp := arr[p];
    arr[p] := arr[q];
    arr[q] := temp;
  }

  method SwapIfGreater(arr: array<int>, p: int, q: int, ghost x: Part)
    requires x.Within(arr.Length) && x.Holds(p) && x.Holds(q) && p != q
    modifies arr
    ensures arr[p] <= arr[q]
    ensures {old(arr[p]), old(arr[q])} == {arr[p], arr[q]}
    ensures forall k :: 0 <= k < arr.Length && k != p && k != q ==> arr[k] == old(arr[k])
    ensures Rearranged(old(arr[..]), arr[..], x)
    ensures old(arr[p]) <= old(arr[q]) ==> arr[..] == old(arr[..])
  {
    hide Rearranged;
    if arr[p] > arr[q] {
      Swap(arr, p, q, x);
    } else {
      RearrangedSelf(arr[..], x);
    }
  }

  /** s' is s with element i moved down to position j. */
  ghost predicate MovedDown(s: seq<int>, s': seq<int>, j: int, i: int) {
    && 0 <= j <= i < |s| == |s'| && s'[j] == s[i]
    && (forall k :: 0 <= k < |s| && !(j <= k <= i) ==> s'[k] == s[k])
    && (forall k :: j < k <= i ==> s'[k] == s[k - 1])
  }

  /** Undoing the last exchange leaves a move by one place less. */
  lemma MovedBelow(s: seq<int>, s': seq<int>, j: int, i: int)
    requires MovedDown(s, s', j, i) && j < i
    ensures var t := s'[j := s'[j + 1]][j + 1 := s'[j]];
            MovedDown(s, t, j + 1, i) && s' == t[j := t[j + 1]][j + 1 := t[j]]
  {
  }

  lemma {:induction false} MovedDownRearranges(s: seq<int>, s': seq<int>, j: int, i: int, x: Part)
    requires x.Within(|s|) && x.l - 1 <= j <= i < x.ir && MovedDown(s, s', j, i)
    ensures Rearranged(s, s', x)
    decreases i - j
  {
    hide Rearranged;
    if j == i {
      assert s' == s;
      RearrangedSelf(s, x);
    } else {
      var t := s'[j := s'[j + 1]][j + 1 := s'[j]];
      MovedBelow(s, s', j, i);
      hide MovedDown;
      MovedDownRearranges(s, t, j + 1, i, x);
      SwapRearranges(t, x, j, j + 1);
      RearrangedTransitive(s, t, s', x);
    }
  }

  ghost predicate SortedRange(s: seq<int>, lo: int, hi: int) {
    forall p, q :: lo <= p < q < hi && 0 <= p && q < |s| ==> s[p] <= s[q]
  }

  lemma MovedDownSorts(s: seq<int>, s': seq<int>, j: int, i: int, base: int)
    requires 0 <= base <= j && MovedDown(s, s', j, i) && SortedRange(s, base, i)
    requires j == base || s[j - 1] <= s[i]
    requires forall k :: j <= k < i ==> s[i] < s[k]
    ensures SortedRange(s', base, i + 1)
  {
    forall p, q | base <= p < q < i + 1 ensures s'[p] <= s'[q] {
      var p0 := if p < j then p else if p == j then i else p - 1;
      var q0 := if q < j then q else if q == j then i else q - 1;
      assert s'[p] == s[p0] && s'[q] == s[q0];
    }
  }

  /** Shift the larger elements of a sorted run up and drop element i into the gap. */
  method Insert(arr: array<int>, i: int, x: Part)
    requires x.Within(arr.Length) && x.l - 1 < i < x.ir && SortedRange(arr[..], x.l - 1, i)
    modifies arr
    ensures Rearranged(old(arr[..]), arr[..], x) && SortedRange(arr[..], x.l - 1, i + 1)
  {
    hide Rearranged, SortedRange;
    ghost var before := arr[..];
    var base := x.l - 1;
    var value := arr[i];
    var j := i;
    while value < arr[j - 1]
      invariant base < j <= i
      invariant forall k :: 0 <= k < arr.Length && !(j < k <= i) ==> arr[k] == before[k]
      invariant forall k :: j < k <= i ==> arr[k] == before[k - 1]
      invariant forall k :: j <= k < i ==> value < before[k]
      decreases j
    {
      arr[j] := arr[j - 1];
      j := j - 1;
      if j == base { break; }
    }
    arr[j] := value;
    MovedDownRearranges(before, arr[..], j, i, x);
    MovedDownSorts(before, arr[..], j, i, base);
  }

  /** Insertion sort of one part; the source is handed the part's first element and its size. */
  method InsertionSort(arr: array<int>, x: Part)
    requires x.Within(arr.Length)
    modifies arr
    ensures Rearranged(old(arr[..]), arr[..], x) && SortedRange(arr[..], x.l - 1, x.ir)
  {
    var i := x.l;
    while i < x.ir
      invariant x.l <= i && (i <= x.ir || x.ir == x.l - 1)
      invariant Rearranged(old(arr[..]), arr[..], x) && SortedRange(arr[..], x.l - 1, i)
    {
      ghost var before := arr[..];
      Insert(arr, i, x);
      RearrangedTransitive(old(arr[..]), before, arr[..], x);
      i := i + 1;
    }
  }

  // ---------------------------------------------------------------------------
  // Partitioning
  // ---------------------------------------------------------------------------

  /** All elements from lo up to hi are at most, or at least, a. */
  ghost predicate AtMost(s: seq<int>, lo: int, hi: int, a: int) {
    forall p :: lo <= p < hi && 0 <= p < |s| ==> s[p] <= a
  }

  ghost predicate AtLeast(s: seq<int>, lo: int, hi: int, a: int) {
    forall p :: lo <= p < hi && 0 <= p < |s| ==> a <= s[p]
  }

  /** Three exchanges put the smallest of three elements first and the median second. */
  method OrderThree(arr: array<int>, l: int, ir: int)
    requires Part(l, ir).Within(arr.Length) && ir - l >= INSERTION_THRESHOLD
    modifies arr
    ensures arr[l - 1] <= arr[l] <= arr[ir - 1]
    ensures Rearranged(old(arr[..]), arr[..], Part(l, ir))
    ensures old(arr[l - 1]) <= old(arr[l]) <= old(arr[ir - 1]) ==> arr[..] == old(arr[..])
  {
    hide Rearranged;
    ghost var x := Part(l, ir);
    ghost var s0 := arr[..];
    OuterTwo(arr, l, ir);
    ghost var s2 := arr[..];
    SwapIfGreater(arr, l - 1, l, x);
    RearrangedTransitive(s0, s2, arr[..], x);
  }

  /** The first two of them leave the largest at the end. */
  method OuterTwo(arr: array<int>, l: int, ir: int)
    requires Part(l, ir).Within(arr.Length) && ir - l >= INSERTION_THRESHOLD
    modifies arr
    ensures arr[l - 1] <= arr[ir - 1] && arr[l] <= arr[ir - 1]
    ensures Rearranged(old(arr[..]), arr[..], Part(l, ir))
    ensures old(arr[l - 1]) <= old(arr[ir - 1]) && old(arr[l]) <= old(arr[ir - 1]) ==> arr[..] == old(arr[..])
  {
    hide Rearranged;
    ghost var x := Part(l, ir);
    ghost var s0 := arr[..];
    SwapIfGreater(arr, l - 1, ir - 1, x);
    ghost var s1 := arr[..];
    SwapIfGreater(arr, l, ir - 1, x);
    RearrangedTransitive(s0, s1, arr[..], x);
  }

  /** The element between the two halves of a part. */
  function Middle(x: Part): int { (x.l + x.ir) / 2 - 1 }

  ghost predicate Climbing(s: seq<int>, x: Part) {
    forall p, q :: x.l - 1 <= p < q < x.ir && 0 <= p && q < |s| ==> s[p] < s[q]
  }

  function Swapped(s: seq<int>, p: int, q: int): seq<int>
    requires 0 <= p < |s| && 0 <= q < |s|
  {
    s[p := s[q]][q := s[p]]
  }

  lemma MiddleInside(x: Part)
    requires 1 <= x.l && x.ir - x.l >= INSERTION_THRESHOLD
    ensures x.l < Middle(x) < x.ir - 1 && x.ir - 1 - Middle(x) >= Middle(x) - (x.l - 1)
  {
  }

  lemma ClimbingOrder(s: seq<int>, x: Part)
    requires x.Within(|s|) && x.ir - x.l >= INSERTION_THRESHOLD && Climbing(s, x)
    ensures x.l < Middle(x) < x.ir - 1
    ensures var s' := Swapped(s, Middle(x), x.l); s'[x.l - 1] <= s'[x.l] <= s'[x.ir - 1]
  {
    MiddleInside(x);
  }

  /** Median of three into l[0], with sentinels at both ends of the part. In a part that climbs
      already, the middle element and l[0] change places. */
  method MedianOfThree(arr: array<int>, l: int, ir: int)
    requires Part(l, ir).Within(arr.Length) && ir - l >= INSERTION_THRESHOLD
    modifies arr
    ensures arr[l - 1] <= arr[l] <= arr[ir - 1]
    ensures Rearranged(old(arr[..]), arr[..], Part(l, ir))
    ensures l < Middle(Part(l, ir)) < ir - 1
    ensures Climbing(old(arr[..]), Part(l, ir)) ==> arr[..] == Swapped(old(arr[..]), Middle(Part(l, ir)), l)
  {
    hide Rearranged, Climbing, Swapped, Middle;
    ghost var x := Part(l, ir);
    ghost var s0 := arr[..];
    MiddleInside(x);
    Swap(arr, Middle(Part(l, ir)), l, x);
    ghost var s1 := arr[..];
    if Climbing(s0, x) { ClimbingOrder(s0, x); }
    OrderThree(arr, l, ir);
    RearrangedTransitive(s0, s1, arr[..], x);
  }

  /** `while (*i++ < a);`: the element at top, at least a, is the sentinel. */
  method ScanUp(arr: array<int>, i: int, a: int, ghost top: int) returns (i': int)
    requires 0 <= i <= top < arr.Length && arr[top] >= a
    ensures i < i' <= top + 1 && arr[i' - 1] >= a
    ensures forall p :: i <= p < i' - 1 ==> arr[p] < a
  {
    i' := i;
    while arr[i'] < a
      invariant i <= i' <= top
      invariant forall p :: i <= p < i' ==> arr[p] < a
      decreases top - i'
    {
      i' := i' + 1;
    }
    i' := i' + 1;
  }

  /** `while (*(j-- - 2) > a);`: the element at bottom, at most a, is the sentinel. */
  method ScanDown(arr: array<int>, j: int, a: int, ghost bottom: int) returns (j': int)
    requires 0 <= bottom <= j - 2 < arr.Length && arr[bottom] <= a
    ensures bottom + 1 <= j' < j && arr[j' - 1] <= a
    ensures forall p :: j' <= p < j - 1 ==> arr[p] > a
  {
    j' := j;
    while arr[j' - 2] > a
      invariant bottom <= j' - 2 && j' <= j
      invariant forall p :: j' - 1 <= p < j - 1 ==> arr[p] > a
      decreases j'
    {
      j' := j' - 1;
    }
    j' := j' - 1;
  }

  lemma ScanStart(s: seq<int>, x: Part)
    requires x.Within(|s|) && x.l < x.ir && s[x.l - 1] <= s[x.l] <= s[x.ir - 1]
    ensures Rearranged(s, s, x) && AtMost(s, x.l - 1, x.l + 1, s[x.l]) && AtLeast(s, x.ir - 1, x.ir, s[x.l])
  {
  }

  lemma Sentinel(s: seq<int>, lo: int, hi: int, a: int, p: int)
    requires AtLeast(s, lo, hi, a) && 0 <= lo <= p < hi <= |s|
    ensures s[p] >= a
  {
  }

  lemma ScannedUp(s: seq<int>, lo: int, i: int, i': int, a: int)
    requires AtMost(s, lo, i, a) && 0 <= i && forall p :: i <= p < i' - 1 && p < |s| ==> s[p] < a
    ensures AtMost(s, lo, i' - 1, a)
  {
  }

  lemma ScannedDown(s: seq<int>, j: int, j': int, hi: int, a: int)
    requires AtLeast(s, j - 1, hi, a) && 0 <= j' && forall p :: j' <= p < j - 1 && p < |s| ==> s[p] > a
    ensures AtLeast(s, j', hi, a)
  {
  }

  lemma Exchanged(s: seq<int>, lo: int, i: int, j: int, hi: int, a: int)
    requires AtMost(s, lo, i - 1, a) && AtLeast(s, j, hi, a)
    requires 0 <= lo < i - 1 <= j - 1 < hi <= |s| && s[i - 1] >= a && s[j - 1] <= a
    ensures var s' := s[i - 1 := s[j - 1]][j - 1 := s[i - 1]];
            AtMost(s', lo, i, a) && AtLeast(s', j - 1, hi, a)
  {
  }

  /** Both scans of one round; the array is only read. */
  method Scan(arr: array<int>, i: int, j: int, a: int, ghost x: Part) returns (i': int, j': int)
    requires x.Within(arr.Length) && x.l + 1 <= i <= j <= x.ir && x.l + 2 <= j && (i == j ==> j < x.ir)
    requires arr[x.l] == a && AtMost(arr[..], x.l - 1, i, a) && AtLeast(arr[..], j - 1, x.ir, a)
    ensures i < i' <= x.ir && x.l < j' < j && arr[i' - 1] >= a && arr[j' - 1] <= a
    ensures AtMost(arr[..], x.l - 1, i' - 1, a) && AtLeast(arr[..], j', x.ir, a)
  {
    hide AtMost, AtLeast;
    ghost var top := if i < j then j - 1 else j;
    Sentinel(arr[..], j - 1, x.ir, a, top);
    i' := ScanUp(arr, i, a, top);
    ScannedUp(arr[..], x.l - 1, i, i', a);
    j' := ScanDown(arr, j, a, x.l);
    ScannedDown(arr[..], j, j', x.ir, a);
  }

  /** Exchange the two elements the scans stopped at. */
  method Exchange(arr: array<int>, i: int, j: int, a: int, ghost x: Part)
    requires x.Within(arr.Length) && x.l + 1 < i <= j <= x.ir && arr[i - 1] >= a && arr[j - 1] <= a
    requires AtMost(arr[..], x.l - 1, i - 1, a) && AtLeast(arr[..], j, x.ir, a)
    modifies arr
    ensures AtMost(arr[..], x.l - 1, i, a) && AtLeast(arr[..], j - 1, x.ir, a)
    ensures arr[x.l] == old(arr[x.l]) && Rearranged(old(arr[..]), arr[..], x)
  {
    hide Rearranged, AtMost, AtLeast;
    Exchanged(arr[..], x.l - 1, i, j, x.ir, a);
    Swap(arr, i - 1, j - 1, x);
  }

  /** Around an element of a part, everything before it but l[0] is below l[0] and everything behind
      it above. */
  ghost predicate SplitAt(s: seq<int>, x: Part, mid: int) {
    && x.Within(|s|) && x.l < mid < x.ir - 1
    && (forall p :: x.l < p <= mid ==> s[p] < s[x.l])
    && (forall p :: mid < p < x.ir ==> s[p] > s[x.l])
  }

  /** There the scans cross at once. */
  lemma ScanOfSplit(s: seq<int>, x: Part, mid: int, i: int, j: int)
    requires SplitAt(s, x, mid) && x.l + 1 < i <= x.ir && x.l < j < x.ir && s[i - 1] >= s[x.l] >= s[j - 1]
    requires AtMost(s, x.l - 1, i - 1, s[x.l]) && AtLeast(s, j, x.ir, s[x.l])
    ensures i == mid + 2 && j == mid + 1
  {
    assert s[mid + 1] > s[x.l] && s[mid] < s[x.l];
  }

  lemma ClimbingSplits(s: seq<int>, x: Part)
    requires x.Within(|s|) && x.l < Middle(x) < x.ir - 1 && Climbing(s, x)
    ensures var s' := Swapped(s, Middle(x), x.l);
            SplitAt(s', x, Middle(x)) && Swapped(s', x.l, Middle(x)) == s
  {
  }

  /** The innermost loop of the partition. The median and the elements already exchanged are
      sentinels: neither scan leaves the part. */
  method ScanAndExchange(arr: array<int>, l: int, ir: int) returns (i: int, j: int)
    requires Part(l, ir).Within(arr.Length) && ir - l >= INSERTION_THRESHOLD
    requires arr[l - 1] <= arr[l] <= arr[ir - 1]
    modifies arr
    ensures arr[l] == old(arr[l]) && l < j < i <= ir
    ensures AtMost(arr[..], l - 1, i - 1, arr[l]) && AtLeast(arr[..], j, ir, arr[l]) && arr[j - 1] <= arr[l]
    ensures Rearranged(old(arr[..]), arr[..], Part(l, ir))
    ensures var mid := Middle(Part(l, ir));
            SplitAt(old(arr[..]), Part(l, ir), mid) ==> arr[..] == old(arr[..]) && i == mid + 2 && j == mid + 1
  {
    hide Rearranged, AtMost, AtLeast, SplitAt;
    ghost var x := Part(l, ir);
    ghost var s0 := arr[..];
    var a := arr[l];
    i, j := l + 1, ir;
    ScanStart(arr[..], x);
    while true
      invariant l + 1 <= i <= j <= ir && l + 2 <= j && arr[l] == a && (i == j ==> j < ir)
      invariant AtMost(arr[..], l - 1, i, a) && AtLeast(arr[..], j - 1, ir, a)
      invariant Rearranged(old(arr[..]), arr[..], x)
      invariant SplitAt(s0, x, Middle(x)) ==> arr[..] == s0 && i == l + 1 && j == ir
      decreases j - i
    {
      ghost var s := arr[..];
      i, j := Scan(arr, i, j, a, x);
      if SplitAt(s0, x, Middle(x)) { ScanOfSplit(s0, x, Middle(x), i, j); }
      if j < i { break; }
      Exchange(arr, i, j, a, x);
      RearrangedTransitive(old(arr[..]), s, arr[..], x);
    }
  }

  lemma MedianBetween(s: seq<int>, l: int, ir: int, i: int, j: int)
    requires 1 <= l < j < i <= ir <= |s| && s[j - 1] <= s[l]
    requires AtMost(s, l - 1, i - 1, s[l]) && AtLeast(s, j, ir, s[l])
    ensures var s' := s[l := s[j - 1]][j - 1 := s[l]];
            AtMost(s', l - 1, i - 1, s[l]) && AtLeast(s', j - 1, ir, s[l])
  {
  }

  /** `l[0] = j[-1]; j[-1] = a;`: the median goes between the two parts. */
  method PlaceMedian(arr: array<int>, l: int, ir: int, i: int, j: int) returns (a: int)
    requires Part(l, ir).Within(arr.Length) && l < j < i <= ir && arr[j - 1] <= arr[l]
    requires AtMost(arr[..], l - 1, i - 1, arr[l]) && AtLeast(arr[..], j, ir, arr[l])
    modifies arr
    ensures Rearranged(old(arr[..]), arr[..], Part(l, ir))
    ensures AtMost(arr[..], l - 1, i - 1, a) && AtLeast(arr[..], j - 1, ir, a)
    ensures arr[..] == Swapped(old(arr[..]), l, j - 1)
  {
    hide Rearranged, AtMost, AtLeast;
    ghost var s := arr[..];
    MedianBetween(s, l, ir, i, j);
    SwapRearranges(s, Part(l, ir), l, j - 1);
    a := arr[l];
    arr[l] := arr[j - 1];
    arr[j - 1] := a;
    assert arr[..] == s[l := s[j - 1]][j - 1 := s[l]];
  }

  /** Partition: elements at most a, then a, then elements at least a; between the two parts
      everything equals a. A part that climbs already stays as it is and is cut in its middle. */
  method Partition(arr: array<int>, l: int, ir: int) returns (i: int, j: int, a: int)
    requires Part(l, ir).Within(arr.Length) && ir - l >= INSERTION_THRESHOLD
    modifies arr
    ensures l < j < i <= ir && Rearranged(old(arr[..]), arr[..], Part(l, ir))
    ensures AtMost(arr[..], l - 1, i - 1, a) && AtLeast(arr[..], j - 1, ir, a)
    ensures var mid := Middle(Part(l, ir));
            Climbing(old(arr[..]), Part(l, ir)) ==> arr[..] == old(arr[..]) && i == mid + 2 && j == mid + 1
  {
    hide Rearranged, AtMost, AtLeast, Climbing, SplitAt, Swapped, Middle;
    ghost var x, s0 := Part(l, ir), arr[..];
    MedianOfThree(arr, l, ir);
    ghost var s1 := arr[..];
    if Climbing(s0, x) { ClimbingSplits(s0, x); }
    i, j := ScanAndExchange(arr, l, ir);
    ghost var s2 := arr[..];
    RearrangedTransitive(s0, s1, s2, x);
    a := PlaceMedian(arr, l, ir, i, j);
    RearrangedTransitive(s0, s2, arr[..], x);
  }

  // ---------------------------------------------------------------------------
  // The stack
  // ---------------------------------------------------------------------------

  /** With k parts pending, the current part and every part waiting at depth d have shrunk: each
      split leaves at most half of what is left after taking out the median. */
  ghost predicate Halved(size: int, k: nat, n: int) {
    (size + 1) * Pow2(k) <= n + 1
  }

  ghost predicate StackHalved(pending: seq<Part>, n: int) {
    forall k :: 0 <= k < |pending| ==> Halved(pending[k].Size(), k, n)
  }

  /** The stack array holds the pending parts from slot 1 up, two slots each. */
  ghost predicate Stacked(stack: seq<int>, pending: seq<Part>) {
    && |stack| == NSTACK && 2 * |pending| < NSTACK
    && forall k :: 0 <= k < |pending| ==> stack[2 * k + 1] == pending[k].l && stack[2 * k + 2] == pending[k].ir
  }

  lemma ScaleUp(x: int, y: int, p: int)
    requires x <= y && p >= 0
    ensures x * p <= y * p
  {
  }

  /** A part big enough to be split fits the stack once more, for every length below 12 * 2^24 - 1. */
  lemma RoomToPush(size: int, k: nat, n: int)
    requires Halved(size, k, n) && size > INSERTION_THRESHOLD && n + 1 < 12 * 0x100_0000
    ensures 2 * (k + 1) < NSTACK
  {
    ScaleUp(12, size + 1, Pow2(k));
    if k >= 24 { Pow2Monotone(24, k); }
    Pow2Of24();
  }

  lemma Pow2Of24()
    ensures Pow2(24) == 0x100_0000
  {
    Pow2Of32();
    Pow2Add(16, 8);
  }

  /** The bound is exact: from 12 * 2^24 - 1 elements on, splits into equal halves lead to a part of
      11 elements with 24 parts pending, whose larger half would go into slots 49 and 50 of 0 to 49. */
  lemma RoomIsExact(n: nat)
    ensures n + 1 < 12 * 0x100_0000 <==>
              forall size: nat, k: nat | Halved(size, k, n) && size > INSERTION_THRESHOLD :: 2 * (k + 1) < NSTACK
  {
    if n + 1 < 12 * 0x100_0000 {
      forall size: nat, k: nat | Halved(size, k, n) && size > INSERTION_THRESHOLD ensures 2 * (k + 1) < NSTACK {
        RoomToPush(size, k, n);
      }
    } else {
      Pow2Of24();
      assert Halved(11, 24, n);
    }
  }

  // The halves of a climbing array of that length
  lemma QuotientAtLeast(x: nat, p: nat, k: nat)
    requires p > 0 && x >= k * p
    ensures x / p >= k
  {
    Euclid(x, p);
    if x / p < k { ScaleUp(x / p + 1, k, p); }
  }

  /** With at most 24 parts pending, what is left of a long array is still to be split. */
  lemma StillLong(n: nat, k: nat)
    requires n + 1 >= 12 * 0x100_0000 && k <= 24
    ensures (n + 1) / Pow2(k) >= 12
  {
    Pow2Of24();
    Pow2Monotone(k, 24);
    QuotientAtLeast(n + 1, Pow2(k), 12);
  }

  lemma NextHalf(n: nat, k: nat)
    ensures (n + 1) / Pow2(k) / 2 == (n + 1) / Pow2(k + 1)
  {
    D.DivideTwice(n + 1, Pow2(k), 2);
  }

  lemma SplitHalves(size: int, smaller: int, larger: int, k: nat, n: int)
    requires Halved(size, k, n) && 0 <= smaller <= larger && smaller + larger < size
    ensures Halved(larger, k, n) && Halved(smaller, k + 1, n)
  {
    var p: int := Pow2(k);
    ScaleUp(larger + 1, size + 1, p);
    ScaleUp(2 * (smaller + 1), size + 1, p);
    Reassociate(smaller + 1, p);
  }

  lemma Reassociate(x: int, p: int)
    ensures x * (2 * p) == (2 * x) * p
  {
  }

  /** Work left: every split takes at least one element out. */
  ghost function Weight(parts: seq<Part>): int {
    if |parts| == 0 then 0 else 2 * parts[|parts| - 1].Size() + 1 + Weight(parts[..|parts| - 1])
  }

  lemma WeightOfPush(parts: seq<Part>, x: Part)
    ensures Weight(parts + [x]) == Weight(parts) + 2 * x.Size() + 1
  {
    assert (parts + [x])[..|parts|] == parts;
  }

  lemma {:induction false} WeightPositive(parts: seq<Part>, n: int)
    requires WellPlaced(parts, n)
    ensures Weight(parts) >= |parts|
  {
    if |parts| == 0 {
    } else {
      WeightPositive(parts[..|parts| - 1], n);
    }
  }

  // ---------------------------------------------------------------------------
  // The sort
  // ---------------------------------------------------------------------------

  /** A finished part drops out. */
  lemma FinishPart(a: seq<int>, a': seq<int>, rest: seq<Part>, x: Part)
    requires SortedExcept(a, rest + [x]) && WellPlaced(rest + [x], |a|) && Rearranged(a, a', x)
    requires SortedRange(a', x.l - 1, x.ir)
    ensures SortedExcept(a', rest) && WellPlaced(rest, |a|)
  {
    RefinePart(a, a', rest, x, []);
    assert rest + [] == rest;
    WellPlacedPrefix(rest, x, |a|);
    hide SortedExcept;
  }

  lemma WellPlacedPrefix(rest: seq<Part>, x: Part, n: int)
    requires WellPlaced(rest + [x], n)
    ensures WellPlaced(rest, n) && x.Within(n) && forall k :: 0 <= k < |rest| ==> Apart(rest[k], x)
  {
    assert (rest + [x])[|rest|] == x;
    forall k | 0 <= k < |rest| ensures Apart(rest[k], x) && rest[k].Within(n) {
      assert (rest + [x])[k] == rest[k] && (rest + [x])[|rest|] == x;
    }
    forall j, k | 0 <= j < k < |rest| ensures Apart(rest[j], rest[k]) {
      assert (rest + [x])[j] == rest[j] && (rest + [x])[k] == rest[k];
    }
  }

  /** A partitioned part is replaced by its two halves, in either order. */
  lemma SplitPart(a: seq<int>, a': seq<int>, rest: seq<Part>, x: Part, i: int, j: int, median: int, y: Part, z: Part)
    requires SortedExcept(a, rest + [x]) && WellPlaced(rest + [x], |a|) && Rearranged(a, a', x)
    requires x.l < j < i <= x.ir
    requires AtMost(a', x.l - 1, i - 1, median) && AtLeast(a', j - 1, x.ir, median)
    requires (y == Part(x.l, j - 1) && z == Part(i, x.ir)) || (z == Part(x.l, j - 1) && y == Part(i, x.ir))
    ensures SortedExcept(a', (rest + [y]) + [z]) && WellPlaced((rest + [y]) + [z], |a|)
    ensures 0 <= y.Size() && 0 <= z.Size() && y.Size() + z.Size() < x.Size()
  {
    forall p, q | x.l - 1 <= p < q < x.ir ensures a'[p] <= a'[q] || Together([y, z], p, q) {
      if (y.Holds(p) && y.Holds(q)) || (z.Holds(p) && z.Holds(q)) {
        assert ([y, z][0].Holds(p) && [y, z][0].Holds(q)) || ([y, z][1].Holds(p) && [y, z][1].Holds(q));
      } else {
        assert p < i - 1 && q >= j - 1;
      }
    }
    RefinePart(a, a', rest, x, [y, z]);
    assert rest + [y, z] == (rest + [y]) + [z];
    hide SortedExcept;
    WellPlacedPrefix(rest, x, |a|);
  }

  lemma WholeArray(a: seq<int>)
    ensures SortedExcept(a, [Part(1, |a|)]) && WellPlaced([Part(1, |a|)], |a|)
    ensures Halved(|a|, 0, |a|) && StackHalved([], |a|) && Rearranged(a, a, Part(1, |a|))
  {
    forall p, q | 0 <= p < q < |a| ensures Together([Part(1, |a|)], p, q) {
      assert [Part(1, |a|)][0].Holds(p) && [Part(1, |a|)][0].Holds(q);
    }
  }

  lemma NothingLeft(a: seq<int>)
    requires SortedExcept(a, [])
    ensures Sorted(a)
  {
  }

  /** The state of the main loop: the parts on the stack and the one in hand. */
  ghost predicate Sorting(a: seq<int>, pending: seq<Part>, x: Part) {
    && SortedExcept(a, pending + [x]) && WellPlaced(pending + [x], |a|)
    && StackHalved(pending, |a|) && Halved(x.Size(), |pending|, |a|)
  }

  lemma StepSplit(a: seq<int>, a': seq<int>, rest: seq<Part>, x: Part, i: int, j: int, median: int, larger: Part,
                  smaller: Part)
    requires Sorting(a, rest, x) && Rearranged(a, a', x) && x.l < j < i <= x.ir
    requires AtMost(a', x.l - 1, i - 1, median) && AtLeast(a', j - 1, x.ir, median)
    requires (larger == Part(x.l, j - 1) && smaller == Part(i, x.ir))
               || (smaller == Part(x.l, j - 1) && larger == Part(i, x.ir))
    requires smaller.Size() <= larger.Size()
    ensures Sorting(a', rest + [larger], smaller) && multiset(a') == multiset(a)
    ensures 0 <= Weight((rest + [larger]) + [smaller]) < Weight(rest + [x])
  {
    RearrangedPermutes(a, a', x);
    SplitPart(a, a', rest, x, i, j, median, larger, smaller);
    WeightPositive((rest + [larger]) + [smaller], |a|);
    hide SortedExcept, WellPlaced, AtMost, AtLeast, Rearranged;
    SplitHalves(x.Size(), smaller.Size(), larger.Size(), |rest|, |a|);
    hide Halved;
    WeightOfPush(rest, x);
    WeightOfPush(rest, larger);
    WeightOfPush(rest + [larger], smaller);
  }

  lemma StepFinish(a: seq<int>, a': seq<int>, rest: seq<Part>, x: Part)
    requires Sorting(a, rest, x) && Rearranged(a, a', x) && SortedRange(a', x.l - 1, x.ir)
    ensures SortedExcept(a', rest) && WellPlaced(rest, |a'|) && multiset(a') == multiset(a)
    ensures 0 <= Weight(rest) < Weight(rest + [x])
  {
    RearrangedPermutes(a, a', x);
    FinishPart(a, a', rest, x);
    WellPlacedPrefix(rest, x, |a|);
    hide SortedExcept, SortedRange, Rearranged, Halved, Sorting;
    WeightOfPush(rest, x);
    WeightPositive(rest, |a|);
    hide WellPlaced, Weight;
  }

  lemma PopPart(a: seq<int>, rest: seq<Part>)
    requires |rest| > 0 && SortedExcept(a, rest) && WellPlaced(rest, |a|) && StackHalved(rest, |a|)
    ensures Sorting(a, rest[..|rest| - 1], rest[|rest| - 1])
    ensures rest[..|rest| - 1] + [rest[|rest| - 1]] == rest
  {
    assert rest[..|rest| - 1] + [rest[|rest| - 1]] == rest;
    hide SortedExcept, WellPlaced, Halved;
  }

  ghost predicate TooLong(n: int) { n + 1 >= 12 * 0x100_0000 }

  /** A climbing array on the way down: nothing has moved, and the part in hand is the first half of
      the first half and so on. */
  ghost predicate OnDescent(input: seq<int>, a: seq<int>, x: Part, k: nat) {
    a == input && x.l == 1 && x.ir + 1 == (|a| + 1) / Pow2(k)
  }

  /** What holds before every round of the main loop. */
  ghost predicate Running(input: seq<int>, a: seq<int>, stack: seq<int>, stackp: int, pending: seq<Part>, x: Part) {
    && Sorting(a, pending, x) && x.Within(|a|) && |a| == |input| && multiset(a) == multiset(input)
    && stackp == 2 * |pending| && Stacked(stack, pending)
    && (TooLong(|a|) && Climbing(input, Part(1, |a|)) ==> OnDescent(input, a, x, |pending|))
  }

  lemma RunningStarts(a: seq<int>, stack: seq<int>)
    requires |stack| == NSTACK
    ensures Running(a, a, stack, 0, [], Part(1, |a|)) && 0 <= Weight([] + [Part(1, |a|)])
  {
    hide Sorting, Climbing, TooLong;
    SortingStart(a);
    assert Pow2(0) == 1;
  }

  /** A short part is not on such a descent, so it can be finished and the next one taken up. */
  lemma RunningShort(input: seq<int>, a: seq<int>, stack: seq<int>, stackp: int, pending: seq<Part>, x: Part)
    requires Running(input, a, stack, stackp, pending, x) && x.ir - x.l < INSERTION_THRESHOLD
    ensures !(TooLong(|a|) && Climbing(input, Part(1, |a|)))
  {
    hide Sorting, Climbing;
    if TooLong(|a|) && Climbing(input, Part(1, |a|)) {
      StillLong(|a|, |pending|);
    }
  }

  lemma RunningLast(input: seq<int>, a: seq<int>, a': seq<int>, stack: seq<int>, stackp: int, pending: seq<Part>,
                    x: Part)
    requires Running(input, a, stack, stackp, pending, x) && x.ir - x.l < INSERTION_THRESHOLD && stackp == 0
    requires Rearranged(a, a', x) && SortedRange(a', x.l - 1, x.ir)
    ensures Sorted(a') && multiset(a') == multiset(input) && !(TooLong(|a|) && Climbing(input, Part(1, |a|)))
  {
    hide Sorting, SortedExcept, Rearranged, SortedRange, Climbing, TooLong, Sorted;
    RunningShort(input, a, stack, stackp, pending, x);
    StepFinish(a, a', pending, x);
    assert pending == [];
    NothingLeft(a');
  }

  lemma RunningPops(input: seq<int>, a: seq<int>, a': seq<int>, stack: seq<int>, stackp: int, pending: seq<Part>,
                    x: Part)
    requires Running(input, a, stack, stackp, pending, x) && x.ir - x.l < INSERTION_THRESHOLD && stackp > 0
    requires Rearranged(a, a', x) && SortedRange(a', x.l - 1, x.ir)
    ensures 1 <= stackp - 1 < |stack|
    ensures var rest, y := pending[..|pending| - 1], Part(stack[stackp - 1], stack[stackp]);
            && Running(input, a', stack, stackp - 2, rest, y)
            && 0 <= Weight(rest + [y]) < Weight(pending + [x])
  {
    hide Sorting, SortedExcept, SortedRange, Climbing, TooLong, Weight;
    var rest := pending[..|pending| - 1];
    assert |a'| == |a| by { assert Rearranged(a, a', x); }
    hide Rearranged;
    RunningShort(input, a, stack, stackp, pending, x);
    StepFinish(a, a', pending, x);
    SortingStack(a, pending, x);
    PopPart(a', pending);
    StackTop(stack, pending);
    SortingWithin(a', rest, Part(stack[stackp - 1], stack[stackp]));
  }

  /** The stack is full only for arrays beyond the bound. */
  lemma RunningFull(input: seq<int>, a: seq<int>, a': seq<int>, stack: seq<int>, stackp: int, pending: seq<Part>,
                    x: Part)
    requires Running(input, a, stack, stackp, pending, x) && x.ir - x.l >= INSERTION_THRESHOLD && stackp + 2 >= NSTACK
    requires Rearranged(a, a', x)
    ensures TooLong(|a|) && multiset(a') == multiset(input)
  {
    RearrangedPermutes(a, a', x);
    hide Sorting, Rearranged, Climbing;
    if !TooLong(|a|) { SortingRoom(a, pending, x); }
  }

  lemma RunningPushes(input: seq<int>, a: seq<int>, a': seq<int>, stack: seq<int>, stackp: int, pending: seq<Part>,
                      x: Part, i: int, j: int, median: int, larger: Part, smaller: Part)
    requires Running(input, a, stack, stackp, pending, x) && stackp + 2 < NSTACK && x.ir - x.l >= INSERTION_THRESHOLD
    requires Rearranged(a, a', x) && x.l < j < i <= x.ir
    requires AtMost(a', x.l - 1, i - 1, median) && AtLeast(a', j - 1, x.ir, median)
    requires Climbing(a, x) ==> a' == a && i == Middle(x) + 2 && j == Middle(x) + 1
    requires if x.ir - i + 1 >= j - x.l then larger == Part(i, x.ir) && smaller == Part(x.l, j - 1)
             else larger == Part(x.l, j - 1) && smaller == Part(i, x.ir)
    ensures Running(input, a', stack[stackp + 2 := larger.ir][stackp + 1 := larger.l], stackp + 2, pending + [larger],
              smaller)
    ensures 0 <= Weight((pending + [larger]) + [smaller]) < Weight(pending + [x])
  {
    assert |a'| == |a| by { assert Rearranged(a, a', x); }
    hide Sorting, Rearranged, AtMost, AtLeast, Weight, OnDescent, TooLong, Climbing;
    StepSplit(a, a', pending, x, i, j, median, larger, smaller);
    StackPush(stack, pending, larger);
    SortingWithin(a', pending + [larger], smaller);
    if TooLong(|a|) && Climbing(input, Part(1, |a|)) {
      DescentStep(input, a, a', pending, x, i, j, smaller);
    }
  }

  lemma DescentStep(input: seq<int>, a: seq<int>, a': seq<int>, pending: seq<Part>, x: Part, i: int, j: int,
                    smaller: Part)
    requires OnDescent(input, a, x, |pending|) && Climbing(input, Part(1, |a|)) && x.Within(|a|)
    requires x.ir - x.l >= INSERTION_THRESHOLD
    requires Climbing(a, x) ==> a' == a && i == Middle(x) + 2 && j == Middle(x) + 1
    requires x.ir - i + 1 >= j - x.l ==> smaller == Part(x.l, j - 1)
    ensures OnDescent(input, a', smaller, |pending| + 1)
  {
    NextHalf(|a|, |pending|);
    hide Pow2;
    assert Climbing(a, x);
    MiddleInside(x);
  }

  /** For every array: if the parts fit the stack, the result is a sorted permutation, with every scan
      inside its part. They fit for every array of fewer than 12 * 2^24 - 1 elements and for no
      climbing array of that many or more: there the source writes behind its 50 slots, and the model
      stops with `fits` false. */
  method Sort(n: int, arr: array<int>) returns (fits: bool)
    requires n == arr.Length
    modifies arr
    ensures multiset(arr[..]) == multiset(old(arr[..]))
    ensures fits ==> Sorted(arr[..])
    ensures n + 1 < 12 * 0x100_0000 ==> fits
    ensures n + 1 >= 12 * 0x100_0000 && Climbing(old(arr[..]), Part(1, n)) ==> !fits
  {
    hide Running, Rearranged, SortedRange, AtMost, AtLeast, Weight, Sorted, Climbing, Middle;
    var ir, l := n, 1;
    var stack := new int[NSTACK];
    var stackp := 0;
    ghost var pending: seq<Part> := [];
    ghost var input := arr[..];
    RunningStarts(arr[..], stack[..]);
    while true
      invariant Running(input, arr[..], stack[..], stackp, pending, Part(l, ir))
      invariant 0 <= Weight(pending + [Part(l, ir)])
      decreases Weight(pending + [Part(l, ir)])
    {
      ghost var x, before := Part(l, ir), arr[..];
      RunningMeans(input, before, stack[..], stackp, pending, x);
      if ir - l < INSERTION_THRESHOLD {
        InsertionSort(arr, Part(l, ir));
        if stackp == 0 {
          RunningLast(input, before, arr[..], stack[..], stackp, pending, x);
          return true;
        }
        RunningPops(input, before, arr[..], stack[..], stackp, pending, x);
        ir := stack[stackp];
        stackp := stackp - 1;
        l := stack[stackp];
        stackp := stackp - 1;
        pending := pending[..|pending| - 1];
      } else {
        var i, j, a := Partition(arr, l, ir);
        stackp := stackp + 2;
        if stackp >= NSTACK {
          RunningFull(input, before, arr[..], stack[..], stackp - 2, pending, x);
          return false;
        }
        ghost var below := stack[..];
        if ir - i + 1 >= j - l {
          RunningPushes(input, before, arr[..], below, stackp - 2, pending, x, i, j, a, Part(i, ir), Part(l, j - 1));
          Push(stack, stackp, Part(i, ir));
          pending := pending + [Part(i, ir)];
          ir := j - 1;
        } else {
          RunningPushes(input, before, arr[..], below, stackp - 2, pending, x, i, j, a, Part(l, j - 1), Part(i, ir));
          Push(stack, stackp, Part(l, j - 1));
          pending := pending + [Part(l, j - 1)];
          l := i;
        }
      }
    }
  }

  /** `stackp[0] = ir; stackp[-1] = l;` */
  method Push(stack: array<int>, stackp: int, x: Part)
    requires 1 <= stackp < stack.Length
    modifies stack
    ensures stack[..] == old(stack[..])[stackp := x.ir][stackp - 1 := x.l]
  {
    stack[stackp] := x.ir;
    stack[stackp - 1] := x.l;
  }

  lemma RunningMeans(input: seq<int>, a: seq<int>, stack: seq<int>, stackp: int, pending: seq<Part>, x: Part)
    requires Running(input, a, stack, stackp, pending, x)
    ensures x.Within(|a|) && |a| == |input| && stackp == 2 * |pending| && 0 <= stackp < |stack| == NSTACK
  {
    hide Sorting, Climbing;
  }

  lemma SortingStack(a: seq<int>, pending: seq<Part>, x: Part)
    requires Sorting(a, pending, x)
    ensures StackHalved(pending, |a|)
  {
    hide SortedExcept, WellPlaced, Halved;
  }

  lemma SortingStart(a: seq<int>)
    ensures Sorting(a, [], Part(1, |a|)) && Part(1, |a|).Within(|a|)
    ensures 0 <= Weight([] + [Part(1, |a|)])
  {
    WeightPositive([] + [Part(1, |a|)], |a|) by { WholeArray(a); }
    WholeArray(a);
    assert [] + [Part(1, |a|)] == [Part(1, |a|)];
    hide SortedExcept;
  }

  lemma SortingWithin(a: seq<int>, pending: seq<Part>, x: Part)
    requires Sorting(a, pending, x)
    ensures x.Within(|a|)
  {
    hide SortedExcept;
    WellPlacedPrefix(pending, x, |a|);
  }

  lemma SortingRoom(a: seq<int>, pending: seq<Part>, x: Part)
    requires Sorting(a, pending, x) && x.Size() > INSERTION_THRESHOLD && |a| + 1 < 12 * 0x100_0000
    ensures 2 * (|pending| + 1) < NSTACK
  {
    hide SortedExcept, WellPlaced;
    RoomToPush(x.Size(), |pending|, |a|);
  }

  lemma StackTop(stack: seq<int>, pending: seq<Part>)
    requires Stacked(stack, pending) && |pending| > 0
    ensures var top := |pending| - 1;
            2 * |pending| < |stack| && stack[2 * |pending|] == pending[top].ir
                && stack[2 * |pending| - 1] == pending[top].l
    ensures Stacked(stack, pending[..|pending| - 1])
  {
  }

  lemma StackPush(stack: seq<int>, pending: seq<Part>, x: Part)
    requires Stacked(stack, pending) && 2 * (|pending| + 1) < NSTACK
    ensures var k := 2 * |pending|;
            Stacked(stack[k + 2 := x.ir][k + 1 := x.l], pending + [x])
  {
  }
}
