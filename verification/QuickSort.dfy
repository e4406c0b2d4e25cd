/** The hole-digging quicksort of Other/ErrCode/errCode.cpp (snippet 045), which sorts in descending
    order.  The pivot is lifted out of the array, and elements are moved into the hole it leaves, first
    from the right, then from the left, until the hole is where the pivot belongs.  While the hole moves
    the array holds one element twice and lacks the pivot. */
module QuickSort {

  ghost predicate Descending(s: seq<int>) {
    forall i, j :: 0 <= i < j < |s| ==> s[i] >= s[j]
  }

  /** A permutation that leaves everything outside left..right where it was. */
  ghost predicate Rearranged(s: seq<int>, s0: seq<int>, left: int, right: int) {
    && |s| == |s0| && multiset(s) == multiset(s0)
    && forall k :: 0 <= k < |s| && !(left <= k <= right) ==> s[k] == s0[k]
  }

  ghost predicate AtLeast(s: seq<int>, from: int, to: int, p: int) {
    forall k :: 0 <= k < |s| && from <= k < to ==> s[k] >= p
  }

  ghost predicate AtMost(s: seq<int>, from: int, to: int, p: int) {
    forall k :: 0 <= k < |s| && from <= k < to ==> s[k] <= p
  }

  // ---------------------------------------------------------------- the moving hole

  /** What the loop keeps: with the pivot put into the hole the array is a rearrangement of what it was,
      with nothing smaller than the pivot before i and nothing larger after j. */
  ghost predicate Digging(s: seq<int>, s0: seq<int>, left: int, i: int, j: int, right: int, hole: int, temp: int) {
    && 0 <= left <= i <= hole <= j <= right < |s|
    && Rearranged(s[hole := temp], s0, left, right)
    && AtLeast(s, left, i, temp) && AtMost(s, j + 1, right + 1, temp)
  }

  /** Moving an element into the hole makes its old place the hole: the same array once filled. */
  lemma MoveHole(s: seq<int>, hole: int, from: int, temp: int)
    requires 0 <= hole < |s| && 0 <= from < |s| && hole != from
    ensures multiset(s[hole := s[from]][from := temp]) == multiset(s[hole := temp])
  {
    var t := s[hole := temp];
    assert s[hole := s[from]][from := temp] == t[hole := t[from]][from := t[hole]];
  }

  /** a[i++] = a[j], with the hole at i and a larger element at j. */
  lemma DigFromRight(s: seq<int>, s0: seq<int>, left: int, i: int, j: int, right: int, temp: int)
    requires Digging(s, s0, left, i, j, right, i, temp) && i < j && s[j] > temp
    ensures Digging(s[i := s[j]], s0, left, i + 1, j, right, j, temp)
  {
    MoveHole(s, i, j, temp);
  }

  /** a[j--] = a[i], with the hole at j and a smaller element at i. */
  lemma DigFromLeft(s: seq<int>, s0: seq<int>, left: int, i: int, j: int, right: int, temp: int)
    requires Digging(s, s0, left, i, j, right, j, temp) && i < j && s[i] < temp
    ensures Digging(s[j := s[i]], s0, left, i, j - 1, right, i, temp)
  {
    MoveHole(s, j, i, temp);
  }

  /** The first half of the loop: scan down from j, and fill the hole at i with what was found. */
  method FillFromRight(a: array<int>, ghost s0: seq<int>, left: int, i0: int, j0: int, right: int, temp: int)
    returns (i: int, j: int)
    requires Digging(a[..], s0, left, i0, j0, right, i0, temp) && i0 < j0
    modifies a
    ensures Digging(a[..], s0, left, i, j, right, j, temp) && j - i < j0 - i0
  {
    i, j := i0, j0;
    ghost var s := a[..];
    while i < j && a[j] <= temp
      invariant i <= j <= j0 && AtMost(s, j + 1, right + 1, temp) && a[..] == s
    {
      j := j - 1;
    }
    if i < j {
      DigFromRight(s, s0, left, i, j, right, temp);
      a[i] := a[j];
      i := i + 1;
      assert a[..] == s[i - 1 := s[j]];
    }
  }

  /** The second half: scan up from i, and fill the hole at j. */
  method FillFromLeft(a: array<int>, ghost s0: seq<int>, left: int, i0: int, j0: int, right: int, temp: int)
    returns (i: int, j: int)
    requires Digging(a[..], s0, left, i0, j0, right, j0, temp)
    modifies a
    ensures Digging(a[..], s0, left, i, j, right, i, temp) && j - i <= j0 - i0
  {
    i, j := i0, j0;
    ghost var s := a[..];
    while i < j && a[i] >= temp
      invariant i0 <= i <= j && AtLeast(s, left, i, temp) && a[..] == s
    {
      i := i + 1;
    }
    if i < j {
      DigFromLeft(s, s0, left, i, j, right, temp);
      a[j] := a[i];
      j := j - 1;
      assert a[..] == s[j + 1 := s[i]];
    }
  }

  /** The pivot's place: nothing smaller before it and nothing larger after it. */
  ghost predicate Parted(s: seq<int>, left: int, i: int, right: int) {
    0 <= left <= i <= right < |s| && AtLeast(s, left, i, s[i]) && AtMost(s, i + 1, right + 1, s[i])
  }

  /** The loop of quickSort, which finds the pivot's place and puts it there. */
  method Partition(a: array<int>, left: int, right: int) returns (i: int)
    requires 0 <= left < right < a.Length
    modifies a
    ensures left <= i <= right && Rearranged(a[..], old(a[..]), left, right) && Parted(a[..], left, i, right)
  {
    i := left;
    var j := right;
    var temp := a[i];
    ghost var s0 := a[..];
    assert s0[i := temp] == s0;
    while i != j
      invariant Digging(a[..], s0, left, i, j, right, i, temp)
      decreases j - i
    {
      i, j := FillFromRight(a, s0, left, i, j, right, temp);
      i, j := FillFromLeft(a, s0, left, i, j, right, temp);
    }
    ghost var s := a[..];
    a[i] := temp;
    assert a[..] == s[i := temp];
  }

  // ---------------------------------------------------------------- the recursion

  /** quickSort leaves a[left..right] in descending order, as a permutation of what it was, and everything
      else as it was; with left >= right it does nothing, whatever the two are. */
  method QuickSort(a: array<int>, left: int, right: int)
    requires left < right ==> 0 <= left && right < a.Length
    modifies a
    ensures Rearranged(a[..], old(a[..]), left, right)
    ensures left < right ==> Descending(a[left..right + 1])
    ensures left >= right ==> a[..] == old(a[..])
    decreases right - left
  {
    if left >= right {
      return;
    }
    var i := Partition(a, left, right);
    ghost var s1 := a[..];
    QuickSort(a, left, i - 1);
    ghost var s2 := a[..];
    assert s2[left..i] == a[left..i - 1 + 1];
    QuickSort(a, i + 1, right);
    ghost var s3 := a[..];
    assert s3[i + 1..right + 1] == a[i + 1..right + 1];
    HalvesSorted(s1, s2, s3, left, i, right);
    assert s3[left..right + 1] == a[left..right + 1];
  }

  /** Equal surroundings cancel out of a permutation. */
  lemma Cancel(x: seq<int>, y: seq<int>, y': seq<int>, z: seq<int>)
    requires multiset(x + y + z) == multiset(x + y' + z)
    ensures multiset(y) == multiset(y')
  {
    forall e ensures multiset(y)[e] == multiset(y')[e] {
      assert multiset(x + y + z)[e] == multiset(x)[e] + multiset(y)[e] + multiset(z)[e];
      assert multiset(x + y' + z)[e] == multiset(x)[e] + multiset(y')[e] + multiset(z)[e];
    }
  }

  /** A rearranged window is a permutation of the window. */
  lemma WindowPermuted(s: seq<int>, s0: seq<int>, from: int, to: int)
    requires 0 <= from <= to <= |s| && Rearranged(s, s0, from, to - 1)
    ensures multiset(s[from..to]) == multiset(s0[from..to])
  {
    assert s == s[..from] + s[from..to] + s[to..];
    assert s0 == s0[..from] + s0[from..to] + s0[to..];
    assert s[..from] == s0[..from] && s[to..] == s0[to..];
    Cancel(s[..from], s[from..to], s0[from..to], s[to..]);
  }

  /** Bounds on a window survive rearranging it. */
  lemma BoundsKept(s: seq<int>, s0: seq<int>, from: int, to: int, p: int)
    requires 0 <= from <= to <= |s| && Rearranged(s, s0, from, to - 1)
    ensures AtLeast(s0, from, to, p) ==> AtLeast(s, from, to, p)
    ensures AtMost(s0, from, to, p) ==> AtMost(s, from, to, p)
  {
    WindowPermuted(s, s0, from, to);
    forall k | from <= k < to ensures exists m :: from <= m < to && s0[m] == s[k] {
      assert s[k] == s[from..to][k - from];
      assert s[k] in multiset(s0[from..to]);
      var n :| 0 <= n < to - from && s0[from..to][n] == s[k];
      assert s0[from + n] == s[k];
    }
  }

  /** Sorting the part before the pivot's place, then the part after it, sorts the whole. */
  lemma HalvesSorted(s1: seq<int>, s2: seq<int>, s3: seq<int>, left: int, i: int, right: int)
    requires Parted(s1, left, i, right)
    requires Rearranged(s2, s1, left, i - 1) && Rearranged(s3, s2, i + 1, right)
    requires Descending(s2[left..i]) && Descending(s3[i + 1..right + 1])
    ensures Rearranged(s3, s1, left, right) && Descending(s3[left..right + 1])
  {
    var p := s1[i];
    BoundsKept(s2, s1, left, i, p);
    assert AtMost(s2, i + 1, right + 1, p);
    BoundsKept(s3, s2, i + 1, right + 1, p);
    assert forall k :: left <= k < i ==> s3[k] == s2[left..i][k - left] && s3[k] >= p;
    assert forall k :: i < k <= right ==> s3[k] == s3[i + 1..right + 1][k - i - 1] && s3[k] <= p;
    assert forall k, m :: left <= k < m < i ==> s3[k] >= s3[m];
    assert forall k, m :: i < k < m <= right ==> s3[k] >= s3[m];
  }
}
