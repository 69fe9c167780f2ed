/**
  The in-place quicksort of pointer arrays: scans that rely on the pivot itself
  as their sentinel, recursion into the smaller side only, and a loop for the
  larger one.
*/
module Sort {

  type Pointer = int
  type Comparator = (Pointer, Pointer) -> int

  ghost predicate Le(cmp: Comparator, x: Pointer, y: Pointer) { cmp(x, y) <= 0 }

  /** The comparator's signs describe a total preorder. */
  ghost predicate TotalPreorder(cmp: Comparator) {
    && (forall x, y {:trigger Le(cmp, x, y)} :: cmp(x, y) < 0 <==> 0 < cmp(y, x))
    && (forall x, y, z {:trigger Le(cmp, x, y), Le(cmp, y, z)} ::
          Le(cmp, x, y) && Le(cmp, y, z) ==> Le(cmp, x, z))
  }

  ghost predicate Sorted(s: seq<Pointer>, cmp: Comparator) {
    forall p, q :: 0 <= p < q < |s| ==> cmp(s[p], s[q]) <= 0
  }

  /** `t` is `s` with the elements at [lo, hi) permuted. */
  ghost predicate Permuted(s: seq<Pointer>, t: seq<Pointer>, lo: int, hi: int) {
    && 0 <= lo <= hi <= |s| == |t|
    && s[..lo] == t[..lo] && s[hi..] == t[hi..]
    && multiset(s[lo..hi]) == multiset(t[lo..hi])
  }

  /** Pairs in [l, r) are in order, except perhaps pairs within [lo1, hi1) and
      pairs within [lo2, hi2). */
  ghost predicate OrderedExcept(s: seq<Pointer>, cmp: Comparator, l: int, r: int,
                                   lo1: int, hi1: int, lo2: int, hi2: int)
    requires 0 <= l && r <= |s|
  {
    forall p, q :: l <= p < q < r && !(lo1 <= p && q < hi1) && !(lo2 <= p && q < hi2)
                   ==> cmp(s[p], s[q]) <= 0
  }

  lemma PermutedSource(s: seq<Pointer>, t: seq<Pointer>, lo: int, hi: int, k: int) returns (k': int)
    requires Permuted(s, t, lo, hi) && 0 <= k < |t|
    ensures 0 <= k' < |s| && t[k] == s[k']
    ensures if lo <= k < hi then lo <= k' < hi else k' == k
  {
    if lo <= k < hi {
      assert t[k] == t[lo..hi][k - lo];
      assert t[k] in multiset(s[lo..hi]);
      var j :| 0 <= j < hi - lo && s[lo..hi][j] == t[k];
      k' := lo + j;
    } else {
      assert k < lo ==> t[k] == t[..lo][k] == s[..lo][k];
      assert hi <= k ==> t[k] == t[hi..][k - hi] == s[hi..][k - hi];
      k' := k;
    }
  }

  lemma PermutedTrans(s: seq<Pointer>, t: seq<Pointer>, u: seq<Pointer>, lo: int, hi: int)
    requires Permuted(s, t, lo, hi) && Permuted(t, u, lo, hi)
    ensures Permuted(s, u, lo, hi)
  {
  }

  lemma PermutedWider(s: seq<Pointer>, t: seq<Pointer>, lo: int, hi: int, lo': int, hi': int)
    requires Permuted(s, t, lo, hi) && 0 <= lo' <= lo && hi <= hi' <= |s|
    ensures Permuted(s, t, lo', hi')
  {
    assert s[..lo'] == s[..lo][..lo'] && t[..lo'] == t[..lo][..lo'];
    assert s[hi'..] == s[hi..][hi' - hi..] && t[hi'..] == t[hi..][hi' - hi..];
    assert s[lo'..hi'] == s[..lo][lo'..] + s[lo..hi] + s[hi..][..hi' - hi];
    assert t[lo'..hi'] == t[..lo][lo'..] + t[lo..hi] + t[hi..][..hi' - hi];
  }

  lemma SwapPermutes(s: seq<Pointer>, t: seq<Pointer>, lo: int, hi: int, i: int, j: int)
    requires 0 <= lo <= i < hi <= |s| && lo <= j < hi
    requires t == s[i := s[j]][j := s[i]]
    ensures Permuted(s, t, lo, hi)
  {
    assert t[lo..hi] == s[lo..hi][i - lo := s[j]][j - lo := s[i]];
  }

  /** Permuting a stretch whose inner order is unknown anyway keeps the rest. */
  lemma PermuteKeepsOrder(s: seq<Pointer>, t: seq<Pointer>, cmp: Comparator, l: int, r: int,
                             lo1: int, hi1: int, lo2: int, hi2: int)
    requires 0 <= l <= lo1 <= hi1 <= lo2 && hi1 <= r <= |s| && hi2 <= r
    requires Permuted(s, t, lo1, hi1) || (lo2 <= hi2 && Permuted(s, t, lo2, hi2))
    requires OrderedExcept(s, cmp, l, r, lo1, hi1, lo2, hi2)
    ensures OrderedExcept(t, cmp, l, r, lo1, hi1, lo2, hi2)
  {
    var lo, hi := lo1, hi1;
    if !Permuted(s, t, lo1, hi1) {
      lo, hi := lo2, hi2;
    }
    forall p, q | l <= p < q < r && !(lo1 <= p && q < hi1) && !(lo2 <= p && q < hi2)
      ensures cmp(t[p], t[q]) <= 0
    {
      var p' := PermutedSource(s, t, lo, hi, p);
      var q' := PermutedSource(s, t, lo, hi, q);
      assert l <= p' < q' < r;
    }
  }

  /** The pivot is at `i`, what is smaller before it in [l, r), the rest after. */
  ghost predicate Partitioned(s: seq<Pointer>, cmp: Comparator, l: int, r: int, i: int) {
    && 0 <= l <= i < r <= |s|
    && (forall k :: l <= k < i ==> cmp(s[k], s[i]) < 0)
    && (forall k :: i < k < r ==> 0 <= cmp(s[k], s[i]))
  }

  function Pow2(n: nat): nat { if n == 0 then 1 else 2 * Pow2(n - 1) }

  lemma SortStart(s: seq<Pointer>, cmp: Comparator, lo: int, hi: int)
    requires 0 <= lo <= hi <= |s|
    ensures Permuted(s, s, lo, hi) && OrderedExcept(s, cmp, lo, hi, lo, hi, hi, hi)
  {
  }

  lemma Flip(cmp: Comparator, x: Pointer, y: Pointer)
    requires TotalPreorder(cmp) && 0 <= cmp(x, y)
    ensures cmp(y, x) <= 0
  {
    assert Le(cmp, x, y) || 0 < cmp(x, y);
  }

  lemma Trans(cmp: Comparator, x: Pointer, y: Pointer, z: Pointer)
    requires TotalPreorder(cmp) && cmp(x, y) <= 0 && cmp(y, z) <= 0
    ensures cmp(x, z) <= 0
  {
    assert Le(cmp, x, y) && Le(cmp, y, z);
    assert Le(cmp, x, z);
  }

  lemma Reflexive(cmp: Comparator, x: Pointer)
    requires TotalPreorder(cmp)
    ensures cmp(x, x) == 0
  {
    assert Le(cmp, x, x) || !Le(cmp, x, x);
  }

  /** Swap two elements of [lo, hi), keeping it a permutation of what it was. */
  method Exchange(a: array<Pointer>, ghost was: seq<Pointer>, ghost lo: int, ghost hi: int, i: int, j: int)
    requires 0 <= lo <= i < hi <= a.Length && lo <= j < hi
    requires Permuted(was, a[..], lo, hi)
    modifies a
    ensures a[i] == old(a[j]) && a[j] == old(a[i])
    ensures forall k :: 0 <= k < a.Length && k != i && k != j ==> a[k] == old(a[k])
    ensures Permuted(was, a[..], lo, hi)
  {
    var t := a[i];
    a[i] := a[j];
    a[j] := t;
    SwapPermutes(old(a[..]), a[..], lo, hi, i, j);
    PermutedTrans(was, old(a[..]), a[..], lo, hi);
  }

  /** The scanning loop, with the pivot parked at `r`: it returns the place where
      the pivot belongs. No scan leaves [l, r]. */
  method Scan(a: array<Pointer>, ghost was: seq<Pointer>, l: int, r: int, cmp: Comparator) returns (i: int)
    requires 0 <= l < r < a.Length
    requires cmp(a[r], a[r]) == 0
    requires Permuted(was, a[..], l, r + 1)
    modifies a
    ensures l <= i <= r && a[r] == old(a[r])
    ensures Permuted(was, a[..], l, r + 1)
    ensures forall k :: l <= k < i ==> cmp(a[k], a[r]) < 0
    ensures forall k :: i <= k < r ==> 0 <= cmp(a[k], a[r])
  {
    hide Permuted;
    i := l - 1;
    var j := r;
    var pivot := a[r];
    while i < j
      invariant l - 1 <= i <= r && l <= j <= r && i - 1 <= j && (i < l ==> j == r)
      invariant a[r] == pivot
      invariant forall k :: l <= k < i || (k == i && l <= k && i < j) ==> cmp(a[k], pivot) < 0
      invariant forall k :: j < k <= r || (k == j && i < j) || (k == i && j <= i) ==> 0 <= cmp(a[k], pivot)
      invariant Permuted(was, a[..], l, r + 1)
      decreases j - i
    {
      ghost var top := j;
      i := i + 1;
      while cmp(a[i], pivot) < 0
        invariant l <= i <= top
        invariant forall k :: l <= k < i ==> cmp(a[k], pivot) < 0
        decreases top - i
      {
        i := i + 1;
      }
      j := j - 1;
      while cmp(a[j], pivot) >= 0 && i < j
        invariant l <= j < top && (i <= j || j == top - 1 == i - 1)
        invariant forall k :: j < k <= r ==> 0 <= cmp(a[k], pivot)
        decreases j
      {
        j := j - 1;
      }
      if i < j {
        Exchange(a, was, l, r + 1, i, j);
      }
    }
  }

  /** Exchanging the parked pivot with what stands at its place puts it there. */
  lemma Placed(s: seq<Pointer>, t: seq<Pointer>, cmp: Comparator, l: int, r: int, i: int)
    requires 0 <= l <= i <= r < |s| == |t|
    requires t[i] == s[r] && t[r] == s[i] && forall k :: 0 <= k < |s| && k != i && k != r ==> t[k] == s[k]
    requires forall k :: l <= k < i ==> cmp(s[k], s[r]) < 0
    requires forall k :: i <= k < r ==> 0 <= cmp(s[k], s[r])
    ensures Partitioned(t, cmp, l, r + 1, i)
  {
  }

  /** The body of the loop of __qsort_p up to the recursion: the pivot goes to
      its place `i`, smaller elements before it. */
  method Partition(a: array<Pointer>, l: int, r: int, cmp: Comparator) returns (i: int)
    requires 0 <= l < r < a.Length
    requires cmp(a[(l + r) / 2], a[(l + r) / 2]) == 0
    modifies a
    ensures Permuted(old(a[..]), a[..], l, r + 1)
    ensures l <= i <= r && Partitioned(a[..], cmp, l, r + 1, i)
  {
    hide Permuted, Partitioned;
    var m := (l + r) / 2;
    SortStart(a[..], cmp, l, r + 1);
    Exchange(a, old(a[..]), l, r + 1, m, r);
    i := Scan(a, old(a[..]), l, r, cmp);
    ghost var was := a[..];
    Exchange(a, old(a[..]), l, r + 1, i, r);
    Placed(was, a[..], cmp, l, r, i);
  }

  /** Once the pivot is placed, only pairs on one side of it can be out of order. */
  lemma PartitionOrders(s: seq<Pointer>, t: seq<Pointer>, cmp: Comparator, lo: int, hi: int, l: int, r: int, i: int)
    requires TotalPreorder(cmp)
    requires 0 <= lo <= l && r <= hi <= |s| && Permuted(s, t, l, r)
    requires OrderedExcept(s, cmp, lo, hi, l, r, r, r)
    requires Partitioned(t, cmp, l, r, i)
    ensures OrderedExcept(t, cmp, lo, hi, l, i, i + 1, r) && Permuted(s, t, lo, hi)
  {
    PermutedWider(s, t, l, r, lo, hi);
    PermuteKeepsOrder(s, t, cmp, lo, hi, l, r, r, r);
    forall p, q | l <= p < q < r && !(l <= p && q < i) && !(i + 1 <= p && q < r)
      ensures cmp(t[p], t[q]) <= 0
    {
      if i < q {
        Flip(cmp, t[q], t[i]);
        if p < i {
          Trans(cmp, t[p], t[i], t[q]);
        }
      }
    }
  }

  /** Sorting one side leaves only pairs of the other side to put in order. */
  lemma SideSorted(t: seq<Pointer>, u: seq<Pointer>, cmp: Comparator, lo: int, hi: int,
                   lo1: int, hi1: int, lo2: int, hi2: int)
    requires 0 <= lo <= lo1 <= hi1 <= lo2 <= hi2 <= hi <= |t| == |u|
    requires OrderedExcept(t, cmp, lo, hi, lo1, hi1, lo2, hi2)
    ensures Permuted(t, u, lo1, hi1) && OrderedExcept(u, cmp, lo1, hi1, lo1, lo1, lo1, lo1) ==>
              Permuted(t, u, lo, hi) && OrderedExcept(u, cmp, lo, hi, lo2, hi2, hi2, hi2)
    ensures Permuted(t, u, lo2, hi2) && OrderedExcept(u, cmp, lo2, hi2, lo2, lo2, lo2, lo2) ==>
              Permuted(t, u, lo, hi) && OrderedExcept(u, cmp, lo, hi, lo1, hi1, hi1, hi1)
  {
    if Permuted(t, u, lo1, hi1) {
      PermutedWider(t, u, lo1, hi1, lo, hi);
      PermuteKeepsOrder(t, u, cmp, lo, hi, lo1, hi1, lo2, hi2);
    }
    if Permuted(t, u, lo2, hi2) {
      PermutedWider(t, u, lo2, hi2, lo, hi);
      PermuteKeepsOrder(t, u, cmp, lo, hi, lo1, hi1, lo2, hi2);
    }
  }

  lemma SortEnd(s: seq<Pointer>, cmp: Comparator, lo: int, hi: int, l: int, r: int)
    requires 0 <= lo <= l && hi <= |s| && r <= l + 1
    requires OrderedExcept(s, cmp, lo, hi, l, r, r, r)
    ensures OrderedExcept(s, cmp, lo, hi, lo, lo, lo, lo)
  {
  }

  /** One more level of recursion, into at most half of the rest. */
  lemma DeeperBound(d: nat, small: int, total: int)
    requires 0 <= small && 2 * small < total && 2 <= total
    requires d == 0 || Pow2(d) <= small
    ensures Pow2(d + 1) <= total
  {
  }

  /** Partition, with what it does to the whole stretch that is being sorted. */
  method Split(a: array<Pointer>, l: int, r: int, cmp: Comparator,
               ghost was: seq<Pointer>, ghost left: int, ghost right: int) returns (i: int)
    requires 0 <= left <= l < r <= right < a.Length
    requires TotalPreorder(cmp) && Permuted(was, a[..], left, right + 1)
    requires OrderedExcept(a[..], cmp, left, right + 1, l, r + 1, r + 1, r + 1)
    modifies a
    ensures l <= i <= r && Permuted(was, a[..], left, right + 1)
    ensures OrderedExcept(a[..], cmp, left, right + 1, l, i, i + 1, r + 1)
  {
    hide Permuted, OrderedExcept, Partitioned, TotalPreorder;
    Reflexive(cmp, a[(l + r) / 2]);
    i := Partition(a, l, r, cmp);
    PartitionOrders(old(a[..]), a[..], cmp, left, right + 1, l, r + 1, i);
    PermutedTrans(was, old(a[..]), a[..], left, right + 1);
  }

  /** The recursive calls of __qsort_p, with what they do to the whole stretch
      that is being sorted. */
  method SortLeft(a: array<Pointer>, l: int, i: int, r: int, cmp: Comparator,
    ghost was: seq<Pointer>, ghost left: int, ghost right: int) returns (ghost depth: nat)
    requires 0 <= left <= l <= i <= r <= right < a.Length && i - l < r - i
    requires TotalPreorder(cmp) && Permuted(was, a[..], left, right + 1)
    requires OrderedExcept(a[..], cmp, left, right + 1, l, i, i + 1, r + 1)
    modifies a
    ensures Permuted(was, a[..], left, right + 1)
    ensures OrderedExcept(a[..], cmp, left, right + 1, i + 1, r + 1, r + 1, r + 1)
    ensures Pow2(depth) <= right + 1 - left
    decreases r - l, 0
  {
    hide Permuted, OrderedExcept, TotalPreorder, Pow2;
    depth := QsortRange(a, l, i - 1, cmp);
    SideSorted(old(a[..]), a[..], cmp, left, right + 1, l, i, i + 1, r + 1);
    PermutedTrans(was, old(a[..]), a[..], left, right + 1);
    DeeperBound(depth, i - l, right + 1 - left);
    depth := depth + 1;
  }

  method SortRight(a: array<Pointer>, l: int, i: int, r: int, cmp: Comparator,
    ghost was: seq<Pointer>, ghost left: int, ghost right: int) returns (ghost depth: nat)
    requires 0 <= left <= l <= i <= r <= right < a.Length && r - i <= i - l && l < r
    requires TotalPreorder(cmp) && Permuted(was, a[..], left, right + 1)
    requires OrderedExcept(a[..], cmp, left, right + 1, l, i, i + 1, r + 1)
    modifies a
    ensures Permuted(was, a[..], left, right + 1)
    ensures OrderedExcept(a[..], cmp, left, right + 1, l, i, i, i)
    ensures Pow2(depth) <= right + 1 - left
    decreases r - l, 0
  {
    hide Permuted, OrderedExcept, TotalPreorder, Pow2;
    depth := QsortRange(a, i + 1, r, cmp);
    SideSorted(old(a[..]), a[..], cmp, left, right + 1, l, i, i + 1, r + 1);
    PermutedTrans(was, old(a[..]), a[..], left, right + 1);
    DeeperBound(depth, r - i, right + 1 - left);
    depth := depth + 1;
  }

  /** __qsort_p on the stretch [left, right]. `depth` counts the nested recursive
      calls below this one: 2^depth never exceeds the number of elements. */
  method QsortRange(a: array<Pointer>, left: int, right: int, cmp: Comparator) returns (ghost depth: nat)
    requires 0 <= left <= right + 1 <= a.Length
    requires TotalPreorder(cmp)
    modifies a
    ensures Permuted(old(a[..]), a[..], left, right + 1)
    ensures OrderedExcept(a[..], cmp, left, right + 1, left, left, left, left)
    ensures depth == 0 || Pow2(depth) <= right + 1 - left
    decreases right - left, 1
  {
    hide Permuted, OrderedExcept, Partitioned, TotalPreorder, Pow2;
    var l, r := left, right;
    depth := 0;
    SortStart(a[..], cmp, left, right + 1);
    while l < r
      invariant left <= l <= r + 1 <= right + 1
      invariant Permuted(old(a[..]), a[..], left, right + 1)
      invariant OrderedExcept(a[..], cmp, left, right + 1, l, r + 1, r + 1, r + 1)
      invariant depth == 0 || Pow2(depth) <= right + 1 - left
      decreases r + 1 - l
    {
      var i := Split(a, l, r, cmp, old(a[..]), left, right);
      ghost var d: nat;
      if i - l < r - i {
        d := SortLeft(a, l, i, r, cmp, old(a[..]), left, right);
        l := i + 1;
      } else {
        d := SortRight(a, l, i, r, cmp, old(a[..]), left, right);
        r := i - 1;
      }
      depth := if depth < d then d else depth;
    }
    SortEnd(a[..], cmp, left, right + 1, l, r + 1);
  }

  /** qsort_p: the whole array ends up a sorted permutation of itself, with
      recursion no deeper than the base-2 logarithm of its length. */
  method Qsort(a: array<Pointer>, cmp: Comparator) returns (ghost depth: nat)
    requires TotalPreorder(cmp)
    modifies a
    ensures Sorted(a[..], cmp)
    ensures multiset(a[..]) == multiset(old(a[..]))
    ensures depth == 0 || Pow2(depth) <= a.Length
  {
    depth := QsortRange(a, 0, a.Length - 1, cmp);
    assert a[..] == a[0..a.Length] && old(a[..]) == old(a[0..a.Length]);
  }
}
