/** quick_sort_indice_inverse of src/ai/yolov8/cpp/postprocess.cpp: a quicksort that moves a hole
    through two arrays in lockstep. */
module LockstepSort {

  type Pair = (real, int)

  ghost function Pairs(input: seq<real>, indices: seq<int>): (p: seq<Pair>)
    requires |input| == |indices|
    ensures |p| == |input|
  {
    seq(|input|, i requires 0 <= i < |input| => (input[i], indices[i]))
  }

  /** q is p with the positions lo..hi permuted and everything else in place. */
  ghost predicate Rearranged(p: seq<Pair>, q: seq<Pair>, lo: nat, hi: nat) {
    && lo <= hi <= |p| == |q|
    && p[..lo] == q[..lo] && p[hi..] == q[hi..]
    && multiset(p[lo..hi]) == multiset(q[lo..hi])
  }

  ghost predicate Descending(p: seq<Pair>, lo: nat, hi: nat) {
    forall i, j | lo <= i < j < hi <= |p| :: p[i].0 >= p[j].0
  }

  ghost predicate AtLeast(p: seq<Pair>, lo: nat, hi: nat, key: real) {
    forall i | lo <= i < hi <= |p| :: p[i].0 >= key
  }

  ghost predicate AtMost(p: seq<Pair>, lo: nat, hi: nat, key: real) {
    forall i | lo <= i < hi <= |p| :: p[i].0 <= key
  }

  lemma SwapRearranges(p: seq<Pair>, lo: nat, hi: nat, i: nat, j: nat)
    requires lo <= i <= j < hi <= |p|
    ensures Rearranged(p, p[i := p[j]][j := p[i]], lo, hi)
  {
    var q := p[i := p[j]][j := p[i]];
    var s := p[lo..hi];
    assert q[lo..hi] == s[i - lo := p[j]][j - lo := p[i]];
  }

  lemma RearrangedWidens(p: seq<Pair>, q: seq<Pair>, lo: nat, hi: nat, lo': nat, hi': nat)
    requires Rearranged(p, q, lo, hi) && lo' <= lo && hi <= hi' <= |p|
    ensures Rearranged(p, q, lo', hi')
  {
    assert p[lo'..hi'] == p[lo'..lo] + p[lo..hi] + p[hi..hi'];
    assert q[lo'..hi'] == q[lo'..lo] + q[lo..hi] + q[hi..hi'];
    assert p[lo'..lo] == p[..lo][lo'..] && q[lo'..lo] == q[..lo][lo'..];
    assert p[hi..hi'] == p[hi..][..hi' - hi] && q[hi..hi'] == q[hi..][..hi' - hi];
    assert p[..lo'] == p[..lo][..lo'] && q[..lo'] == q[..lo][..lo'];
    assert p[hi'..] == p[hi..][hi' - hi..] && q[hi'..] == q[hi..][hi' - hi..];
  }

  lemma RearrangedTransitive(p: seq<Pair>, q: seq<Pair>, r: seq<Pair>, lo: nat, hi: nat)
    requires Rearranged(p, q, lo, hi) && Rearranged(q, r, lo, hi)
    ensures Rearranged(p, r, lo, hi)
  {
  }

  lemma RearrangedOutside(p: seq<Pair>, q: seq<Pair>, lo: nat, hi: nat)
    requires Rearranged(p, q, lo, hi)
    ensures |p| == |q|
    ensures forall i | 0 <= i < |p| && (i < lo || hi <= i) :: p[i] == q[i]
  {
    forall i | 0 <= i < |p| && (i < lo || hi <= i) ensures p[i] == q[i] {
      if i < lo {
        assert p[..lo][i] == q[..lo][i];
      } else {
        assert p[hi..][i - hi] == q[hi..][i - hi];
      }
    }
  }

  /** Every pair of the permuted range was in the range before. */
  lemma RearrangedMember(p: seq<Pair>, q: seq<Pair>, lo: nat, hi: nat, i: nat)
    requires Rearranged(p, q, lo, hi) && lo <= i < hi
    ensures exists j | lo <= j < hi :: p[j] == q[i]
  {
    assert q[lo..hi][i - lo] in multiset(q[lo..hi]);
    assert q[i] in p[lo..hi];
    var j :| 0 <= j < hi - lo && p[lo..hi][j] == q[i];
    assert p[lo + j] == q[i];
  }

  lemma RearrangedKeepsBounds(p: seq<Pair>, q: seq<Pair>, lo: nat, hi: nat, key: real)
    requires Rearranged(p, q, lo, hi)
    ensures AtLeast(p, lo, hi, key) ==> AtLeast(q, lo, hi, key)
    ensures AtMost(p, lo, hi, key) ==> AtMost(q, lo, hi, key)
  {
    forall i | lo <= i < hi
      ensures AtLeast(p, lo, hi, key) ==> q[i].0 >= key
      ensures AtMost(p, lo, hi, key) ==> q[i].0 <= key
    {
      RearrangedMember(p, q, lo, hi, i);
    }
  }

  /** Moving the hole: the pair at `from` is copied into the hole at `hole`, which moves to `from`. */
  lemma HoleMoves(start: seq<Pair>, now: seq<Pair>, lo: nat, hi: nat, hole: nat, from: nat, pivot: Pair)
    requires lo <= hole < hi <= |now| == |start| && lo <= from < hi
    requires Rearranged(start, now[hole := pivot], lo, hi)
    ensures Rearranged(start, now[hole := now[from]][from := pivot], lo, hi)
  {
    hide Rearranged;
    var p := now[hole := pivot];
    var q := now[hole := now[from]][from := pivot];
    if hole != from {
      var i, j := if hole < from then hole else from, if hole < from then from else hole;
      SwapRearranges(p, lo, hi, i, j);
      assert q == p[i := p[j]][j := p[i]];
      RearrangedTransitive(start, p, q, lo, hi);
    } else {
      assert q == p;
    }
  }

  /** Writes one pair into both arrays. */
  method Put(input: array<real>, indices: array<int>, at: nat, value: real, index: int)
    requires at < input.Length == indices.Length
    modifies input, indices
    ensures Pairs(input[..], indices[..]) == old(Pairs(input[..], indices[..]))[at := (value, index)]
    ensures input[at] == value && indices[at] == index
  {
    input[at] := value;
    indices[at] := index;
  }

  /** The first inner loop: down to an element above the key. */
  method ScanHigh(input: array<real>, low: nat, high: nat, key: real) returns (h: nat)
    requires low <= high < input.Length
    ensures low <= h <= high && (h == low || input[h] > key)
    ensures forall i | h < i <= high :: input[i] <= key
  {
    h := high;
    while low < h && input[h] <= key
      invariant low <= h <= high
      invariant forall i | h < i <= high :: input[i] <= key
    {
      h := h - 1;
    }
  }

  /** The second inner loop: up to an element below the key. */
  method ScanLow(input: array<real>, low: nat, high: nat, key: real) returns (l: nat)
    requires low <= high < input.Length
    ensures low <= l <= high && (l == high || input[l] < key)
    ensures forall i | low <= i < l :: input[i] >= key
  {
    l := low;
    while l < high && input[l] >= key
      invariant low <= l <= high
      invariant forall i | low <= i < l :: input[i] >= key
    {
      l := l + 1;
    }
  }

  /** With the pivot in the hole, now is a permutation of start split around the pivot, up to low..high. */
  ghost predicate Split(start: seq<Pair>, now: seq<Pair>, left: nat, low: nat, high: nat, right: nat, pivot: Pair) {
    && left <= low <= high <= right < |now| == |start|
    && Rearranged(start, now[low := pivot], left, right + 1)
    && AtLeast(now, left, low, pivot.0) && AtMost(now, high + 1, right + 1, pivot.0)
  }

  /** One turn of the outer loop. */
  method MoveHole(input: array<real>, indices: array<int>, ghost start: seq<Pair>, ghost pivot: Pair,
                  ghost left: nat, low: nat, high: nat, ghost right: nat, key: real) returns (l: nat, h: nat)
    requires input.Length == indices.Length && low < high && key == pivot.0
    requires Split(start, Pairs(input[..], indices[..]), left, low, high, right, pivot)
    modifies input, indices
    ensures h - l < high - low
    ensures Split(start, Pairs(input[..], indices[..]), left, l, h, right, pivot)
  {
    hide Rearranged;
    ghost var p := Pairs(input[..], indices[..]);
    h := ScanHigh(input, low, high, key);
    Put(input, indices, low, input[h], indices[h]);
    HoleMoves(start, p, left, right + 1, low, h, pivot);
    ghost var q := Pairs(input[..], indices[..]);
    l := ScanLow(input, low, h, key);
    Put(input, indices, h, input[l], indices[l]);
    HoleMoves(start, q, left, right + 1, h, l, pivot);
  }

  /** The hole-moving pass: afterwards the pivot stands at `low`, nothing smaller before it and
      nothing larger after it. */
  method Partition(input: array<real>, left: nat, right: nat, indices: array<int>) returns (low: nat)
    requires left < right < input.Length == indices.Length
    modifies input, indices
    ensures left <= low <= right
    ensures Rearranged(old(Pairs(input[..], indices[..])), Pairs(input[..], indices[..]), left, right + 1)
    ensures AtLeast(Pairs(input[..], indices[..]), left, low, input[low])
    ensures AtMost(Pairs(input[..], indices[..]), low + 1, right + 1, input[low])
  {
    ghost var start := Pairs(input[..], indices[..]);
    var keyIndex, key := indices[left], input[left];
    ghost var pivot := (key, keyIndex);
    low := left;
    var high: nat := right;
    assert start[left := pivot] == start;
    while low < high
      invariant Split(start, Pairs(input[..], indices[..]), left, low, high, right, pivot)
      decreases high - low
    {
      low, high := MoveHole(input, indices, start, pivot, left, low, high, right, key);
    }
    Put(input, indices, low, key, keyIndex);
  }

  method QuickSortIndiceInverse(input: array<real>, left: int, right: int, indices: array<int>)
    requires 0 <= left <= right + 1 <= input.Length == indices.Length
    modifies input, indices
    ensures Rearranged(old(Pairs(input[..], indices[..])), Pairs(input[..], indices[..]), left, right + 1)
    ensures Descending(Pairs(input[..], indices[..]), left, right + 1)
    decreases right - left + 1
  {
    if left < right {
      ghost var p0 := Pairs(input[..], indices[..]);
      var low: int := Partition(input, left, right, indices);
      ghost var p1 := Pairs(input[..], indices[..]);
      QuickSortIndiceInverse(input, left, low - 1, indices);
      ghost var p2 := Pairs(input[..], indices[..]);
      QuickSortIndiceInverse(input, low + 1, right, indices);
      SortedHalves(p0, p1, p2, Pairs(input[..], indices[..]), left, low, right);
    }
  }

  lemma DescendingJoins(p: seq<Pair>, left: nat, low: nat, right: nat)
    requires left <= low <= right < |p|
    requires Descending(p, left, low) && Descending(p, low + 1, right + 1)
    requires AtLeast(p, left, low, p[low].0) && AtMost(p, low + 1, right + 1, p[low].0)
    ensures Descending(p, left, right + 1)
  {
    forall i, j | left <= i < j < right + 1 ensures p[i].0 >= p[j].0 {
      if i < low && low < j {
        assert p[i].0 >= p[low].0 >= p[j].0;
      }
    }
  }

  lemma SortedHalves(p0: seq<Pair>, p1: seq<Pair>, p2: seq<Pair>, p3: seq<Pair>, left: nat, low: nat, right: nat)
    requires left <= low <= right < |p0| == |p1| == |p2| == |p3|
    requires Rearranged(p0, p1, left, right + 1)
    requires AtLeast(p1, left, low, p1[low].0) && AtMost(p1, low + 1, right + 1, p1[low].0)
    requires Rearranged(p1, p2, left, low) && Descending(p2, left, low)
    requires Rearranged(p2, p3, low + 1, right + 1) && Descending(p3, low + 1, right + 1)
    ensures Rearranged(p0, p3, left, right + 1) && Descending(p3, left, right + 1)
  {
    hide Rearranged;
    var key := p1[low].0;
    RearrangedKeepsBounds(p1, p2, left, low, key);
    RearrangedOutside(p1, p2, left, low);
    RearrangedKeepsBounds(p2, p3, low + 1, right + 1, key);
    RearrangedOutside(p2, p3, low + 1, right + 1);
    DescendingJoins(p3, left, low, right);
    hide Descending;
    RearrangedWidens(p1, p2, left, low, left, right + 1);
    RearrangedWidens(p2, p3, low + 1, right + 1, left, right + 1);
    RearrangedTransitive(p0, p1, p2, left, right + 1);
    RearrangedTransitive(p0, p2, p3, left, right + 1);
  }

  lemma {:induction false} DistinctMultiplicity<T>(s: seq<T>, v: T)
    requires forall i, j | 0 <= i < j < |s| :: s[i] != s[j]
    ensures multiset(s)[v] <= 1
  {
    if s != [] {
      var n := |s| - 1;
      assert s == s[..n] + [s[n]];
      DistinctMultiplicity(s[..n], v);
      if s[n] == v {
        assert v !in s[..n];
      }
    }
  }

  lemma RepeatedMultiplicity<T>(s: seq<T>, i: nat, j: nat)
    requires i < j < |s| && s[i] == s[j]
    ensures multiset(s)[s[i]] >= 2
  {
    assert s == s[..i] + [s[i]] + s[i + 1..j] + [s[j]] + s[j + 1..];
  }

  /** The sort's result: probs descending, each beside its box number, every box number once. */
  ghost predicate IsSorted(scores: seq<real>, probs: seq<real>, start: seq<int>) {
    && |probs| == |start| == |scores|
    && (forall k | 0 <= k < |scores| :: 0 <= start[k] < |scores| && probs[k] == scores[start[k]])
    && (forall k, l | 0 <= k < l < |scores| :: start[k] != start[l] && probs[k] >= probs[l])
    && (forall n | 0 <= n < |scores| :: n in start)
  }

  /** Sorting with the identity in the index array: the indices become a permutation, and every score
      still stands beside its own index. */
  lemma SortedFromIdentity(scores: seq<real>, input: seq<real>, indices: seq<int>)
    requires |input| == |indices| == |scores|
    requires Rearranged(Pairs(scores, seq(|scores|, i => i)), Pairs(input, indices), 0, |scores|)
    requires Descending(Pairs(input, indices), 0, |scores|)
    ensures IsSorted(scores, input, indices)
  {
    var p, q := Pairs(scores, seq(|scores|, i => i)), Pairs(input, indices);
    assert p[0..|scores|] == p && q[0..|scores|] == q;
    forall k | 0 <= k < |scores|
      ensures 0 <= indices[k] < |scores| && input[k] == scores[indices[k]]
    {
      RearrangedMember(p, q, 0, |scores|, k);
      assert q[k] == (input[k], indices[k]);
    }
    forall k, l | 0 <= k < l < |scores| ensures indices[k] != indices[l] && input[k] >= input[l] {
      assert q[k].0 >= q[l].0;
      if indices[k] == indices[l] {
        RepeatedMultiplicity(q, k, l);
        DistinctMultiplicity(p, q[k]);
      }
    }
    forall n | 0 <= n < |scores| ensures n in indices {
      assert p[n] in multiset(p);
      assert p[n] in q;
      var k :| 0 <= k < |q| && q[k] == p[n];
      assert indices[k] == n;
    }
  }
}
