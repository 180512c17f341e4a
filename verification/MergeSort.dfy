/** The in-place merge sort behind the kMergeSort system call. */
module MergeSort {

  /** The range of C's int. */
  const INT_MAX := 0x7FFF_FFFF

  function Merge(a: seq<int>, b: seq<int>): (r: seq<int>)
    ensures |r| == |a| + |b|
  {
    if a == [] then b
    else if b == [] then a
    else if a[0] <= b[0] then [a[0]] + Merge(a[1..], b)
    else [b[0]] + Merge(a, b[1..])
  }

  /** What sorting leaves: halves sorted and merged, the left one the longer if they differ. */
  function SortedCopy(s: seq<int>): (r: seq<int>)
    ensures |r| == |s|
  {
    if |s| <= 1 then s
    else
      var m := (|s| + 1) / 2;
      Merge(SortedCopy(s[..m]), SortedCopy(s[m..]))
  }

  ghost predicate Sorted(s: seq<int>) {
    forall i, j :: 0 <= i < j < |s| ==> s[i] <= s[j]
  }

  function Count(s: seq<int>, x: int): nat {
    if s == [] then 0 else (if s[0] == x then 1 else 0) + Count(s[1..], x)
  }

  lemma {:induction false} CountAppend(a: seq<int>, b: seq<int>, x: int)
    ensures Count(a + b, x) == Count(a, x) + Count(b, x)
  {
    if a == [] {
      assert a + b == b;
    } else {
      CountAppend(a[1..], b, x);
      assert (a + b)[1..] == a[1..] + b;
    }
  }

  lemma {:induction false} CountIsMultiplicity(s: seq<int>, x: int)
    ensures multiset(s)[x] == Count(s, x)
  {
    if s != [] {
      CountIsMultiplicity(s[1..], x);
      assert s == [s[0]] + s[1..];
      assert multiset(s) == multiset{s[0]} + multiset(s[1..]);
    }
  }

  lemma {:induction false} CountMember(s: seq<int>, x: int)
    ensures x in s <==> Count(s, x) > 0
  {
    if s != [] { CountMember(s[1..], x); }
  }

  lemma {:induction false} MergeCounts(a: seq<int>, b: seq<int>, x: int)
    ensures Count(Merge(a, b), x) == Count(a, x) + Count(b, x)
  {
    if a != [] && b != [] {
      if a[0] <= b[0] {
        MergeCounts(a[1..], b, x);
        assert Merge(a, b)[1..] == Merge(a[1..], b);
      } else {
        MergeCounts(a, b[1..], x);
        assert Merge(a, b)[1..] == Merge(a, b[1..]);
      }
    }
  }

  lemma ConsSorted(x: int, s: seq<int>)
    requires Sorted(s) && forall i :: 0 <= i < |s| ==> x <= s[i]
    ensures Sorted([x] + s)
  {
  }

  lemma MergeMembers(a: seq<int>, b: seq<int>, y: int)
    requires y in Merge(a, b)
    ensures y in a || y in b
  {
    MergeCounts(a, b, y);
    CountMember(Merge(a, b), y);
    CountMember(a, y);
    CountMember(b, y);
  }

  lemma {:induction false} MergeSorts(a: seq<int>, b: seq<int>)
    requires Sorted(a) && Sorted(b)
    ensures Sorted(Merge(a, b))
  {
    if a != [] && b != [] {
      if a[0] <= b[0] {
        MergeSorts(a[1..], b);
        var rest := Merge(a[1..], b);
        forall i | 0 <= i < |rest| ensures a[0] <= rest[i] {
          MergeMembers(a[1..], b, rest[i]);
        }
        ConsSorted(a[0], Merge(a[1..], b));
      } else {
        MergeSorts(a, b[1..]);
        var rest := Merge(a, b[1..]);
        forall i | 0 <= i < |rest| ensures b[0] <= rest[i] {
          MergeMembers(a, b[1..], rest[i]);
        }
        ConsSorted(b[0], Merge(a, b[1..]));
      }
    }
  }

  lemma {:induction false} SortsInOrder(s: seq<int>)
    ensures Sorted(SortedCopy(s))
  {
    if |s| > 1 {
      var m := (|s| + 1) / 2;
      SortsInOrder(s[..m]);
      SortsInOrder(s[m..]);
      MergeSorts(SortedCopy(s[..m]), SortedCopy(s[m..]));
    }
  }

  lemma {:induction false} SortKeepsCounts(s: seq<int>, x: int)
    ensures Count(SortedCopy(s), x) == Count(s, x)
  {
    if |s| > 1 {
      var m := (|s| + 1) / 2;
      SortKeepsCounts(s[..m], x);
      SortKeepsCounts(s[m..], x);
      MergeCounts(SortedCopy(s[..m]), SortedCopy(s[m..]), x);
      CountAppend(s[..m], s[m..], x);
      assert s == s[..m] + s[m..];
    }
  }

  /** The result is in order and has the same elements, equally often. */
  lemma SortsExactly(s: seq<int>)
    ensures Sorted(SortedCopy(s)) && multiset(SortedCopy(s)) == multiset(s)
  {
    SortsInOrder(s);
    forall x ensures multiset(SortedCopy(s))[x] == multiset(s)[x] {
      SortKeepsCounts(s, x);
      CountIsMultiplicity(s, x);
      CountIsMultiplicity(SortedCopy(s), x);
    }
  }

  lemma HeadCounts(s: seq<int>)
    ensures s == [] || Count(s, s[0]) > 0
  {
  }

  /** There is only one such result, so any correct sort leaves the same array. */
  lemma {:induction false} SortedUnique(a: seq<int>, b: seq<int>)
    requires Sorted(a) && Sorted(b) && forall x :: Count(a, x) == Count(b, x)
    ensures a == b
  {
    if a == [] {
      HeadCounts(b);
    } else {
      assert Count(a, a[0]) == Count(b, a[0]);
      CountMember(b, a[0]);
      assert Count(a, b[0]) == Count(b, b[0]);
      CountMember(a, b[0]);
      forall x ensures Count(a[1..], x) == Count(b[1..], x) {
        assert Count(a, x) == Count(b, x);
      }
      SortedUnique(a[1..], b[1..]);
      assert a == [a[0]] + a[1..] && b == [b[0]] + b[1..];
    }
  }

  /** The midpoint lies in the range, and neither it nor what leads to it exceeds an int. */
  lemma MidpointInRange(l: int, r: int)
    requires 0 <= l < r <= INT_MAX
    ensures var m := l + (r - l) / 2;
            l <= m < r && r - l <= INT_MAX && m + 1 <= INT_MAX && m - l + 1 == (r - l + 2) / 2
  {
  }

  lemma MergeStep(a: seq<int>, b: seq<int>)
    requires a != [] && b != []
    ensures Merge(a, b) == if a[0] <= b[0] then [a[0]] + Merge(a[1..], b) else [b[0]] + Merge(a, b[1..])
  {
  }

  lemma MergeRest(a: seq<int>, b: seq<int>)
    requires a == [] || b == []
    ensures Merge(a, b) == a + b
  {
  }

  lemma Extend(done: seq<int>, x: int, rest: seq<int>, all: seq<int>)
    requires done + ([x] + rest) == all
    ensures (done + [x]) + rest == all
  {
  }

  /** The loop over both halves: takes the smaller head until one half is used up. */
  method MergeHeads(arr: array<int>, l: nat, left: array<int>, right: array<int>) returns (i: nat, j: nat)
    requires l + left.Length + right.Length <= arr.Length && arr != left && arr != right
    modifies arr
    ensures i <= left.Length && j <= right.Length && (i == left.Length || j == right.Length)
    ensures forall x :: 0 <= x < arr.Length && !(l <= x < l + i + j) ==> arr[x] == old(arr[x])
    ensures arr[l..l + i + j] + Merge(left[i..], right[j..]) == Merge(left[..], right[..])
  {
    hide Merge;
    ghost var merged := Merge(left[..], right[..]);
    i, j := 0, 0;
    var k := l;
    assert left[0..] == left[..] && right[0..] == right[..];
    while i < left.Length && j < right.Length
      invariant 0 <= i <= left.Length && 0 <= j <= right.Length && k == l + i + j
      invariant forall x :: 0 <= x < arr.Length && !(l <= x < k) ==> arr[x] == old(arr[x])
      invariant arr[l..k] + Merge(left[i..], right[j..]) == merged
    {
      ghost var done := arr[l..k];
      assert left[i..][1..] == left[i + 1..] && right[j..][1..] == right[j + 1..];
      MergeStep(left[i..], right[j..]);
      if left[i] <= right[j] {
        Extend(done, left[i], Merge(left[i + 1..], right[j..]), merged);
        arr[k] := left[i];
        i := i + 1;
      } else {
        Extend(done, right[j], Merge(left[i..], right[j + 1..]), merged);
        arr[k] := right[j];
        j := j + 1;
      }
      k := k + 1;
      assert arr[l..k] == done + [arr[k - 1]];
    }
  }

  /** Each of the two loops after it: copies what is left of one half. */
  method CopyRest(arr: array<int>, part: array<int>, from: nat, at: nat)
    requires from <= part.Length && at + part.Length - from <= arr.Length && arr != part
    modifies arr
    ensures forall x :: 0 <= x < arr.Length && !(at <= x < at + part.Length - from) ==> arr[x] == old(arr[x])
    ensures arr[at..at + part.Length - from] == part[from..]
  {
    var i, k := from, at;
    while i < part.Length
      invariant from <= i <= part.Length && k == at + i - from
      invariant forall x :: 0 <= x < arr.Length && !(at <= x < k) ==> arr[x] == old(arr[x])
      invariant forall x :: at <= x < k ==> arr[x] == part[from + x - at]
    {
      arr[k] := part[i];
      i := i + 1;
      k := k + 1;
    }
  }

  /** The merge: `left` and `right` are copies of the two sorted halves of arr[l..]. */
  method MergeBack(arr: array<int>, l: nat, left: array<int>, right: array<int>)
    requires l + left.Length + right.Length <= arr.Length && arr != left && arr != right
    modifies arr
    ensures forall x :: 0 <= x < arr.Length && !(l <= x < l + left.Length + right.Length) ==> arr[x] == old(arr[x])
    ensures arr[l..l + left.Length + right.Length] == Merge(left[..], right[..])
  {
    hide Merge;
    ghost var end := l + left.Length + right.Length;
    var i, j := MergeHeads(arr, l, left, right);
    ghost var done := arr[l..l + i + j];
    CopyRest(arr, left, i, l + i + j);
    ghost var more := arr[l + i + j..l + left.Length + j];
    assert arr[l..l + i + j] == done;
    CopyRest(arr, right, j, l + left.Length + j);
    assert arr[l..l + i + j] == done;
    assert arr[l + i + j..l + left.Length + j] == more;
    assert arr[l..end] == done + left[i..] + right[j..];
    MergeRest(left[i..], right[j..]);
    assert done + left[i..] + right[j..] == done + (left[i..] + right[j..]);
  }

  method Copy(arr: array<int>, from: nat, n: nat) returns (part: array<int>)
    requires from + n <= arr.Length
    ensures fresh(part) && part[..] == arr[from..from + n]
  {
    part := new int[n];
    for i := 0 to n
      invariant part[..i] == arr[from..from + i]
    {
      part[i] := arr[from + i];
    }
  }

  lemma ShortSorted(s: seq<int>)
    requires |s| <= 1
    ensures SortedCopy(s) == s
  {
  }

  ghost predicate SameOutside(a: seq<int>, b: seq<int>, l: int, r: int) {
    |a| == |b| && forall x :: 0 <= x < |a| && !(l <= x <= r) ==> a[x] == b[x]
  }

  /** mergeSort(arr, l, r), which sorts arr[l..r] inclusive of r and touches nothing else. */
  method Sort(arr: array<int>, l: int, r: int)
    requires 0 <= l <= INT_MAX && -1 <= r < arr.Length <= INT_MAX
    modifies arr
    ensures SameOutside(arr[..], old(arr[..]), l, r)
    ensures l <= r + 1 ==> arr[l..r + 1] == SortedCopy(old(arr[l..r + 1]))
    decreases r - l
  {
    hide Merge, SortedCopy;
    if l >= r {
      if l <= r + 1 { ShortSorted(arr[l..r + 1]); }
    } else {
      MidpointInRange(l, r);
      var m := l + (r - l) / 2;
      ghost var s := arr[l..r + 1];
      ghost var before := arr[..];
      Sort(arr, l, m);
      ghost var middle := arr[..];
      Sort(arr, m + 1, r);
      ghost var last := arr[..];
      Halves(before, middle, last, l, m, r);
      var left := Copy(arr, l, m - l + 1);
      var right := Copy(arr, m + 1, r - m);
      assert last[l..m + 1] == left[..] && last[m + 1..r + 1] == right[..];
      MergeBack(arr, l, left, right);
    }
  }

  /** After both recursive calls each half of the range is a sorted copy of what it was. */
  lemma Halves(before: seq<int>, middle: seq<int>, last: seq<int>, l: int, m: int, r: int)
    requires 0 <= l <= m < r < |before| && m - l + 1 == (r - l + 2) / 2
    requires SameOutside(middle, before, l, m) && SameOutside(last, middle, m + 1, r)
    requires middle[l..m + 1] == SortedCopy(before[l..m + 1])
    requires last[m + 1..r + 1] == SortedCopy(middle[m + 1..r + 1])
    ensures Merge(last[l..m + 1], last[m + 1..r + 1]) == SortedCopy(before[l..r + 1])
    ensures SameOutside(last, before, l, r)
  {
    hide Merge, SortedCopy;
    var s := before[l..r + 1];
    var half := m - l + 1;
    SortedCopyIs(s, half);
    assert s[..half] == before[l..m + 1];
    assert s[half..] == before[m + 1..r + 1] == middle[m + 1..r + 1];
    assert last[l..m + 1] == middle[l..m + 1];
  }

  lemma SortedCopyIs(s: seq<int>, half: int)
    requires |s| > 1 && half == (|s| + 1) / 2
    ensures SortedCopy(s) == Merge(SortedCopy(s[..half]), SortedCopy(s[half..]))
  {
  }
}
