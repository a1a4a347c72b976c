/** Hoare's quicksort on a slice, in place. */
module Sort {
  import opened Common

  /** Entries lo up to hi, both included, are in order; at most p; at least p. */
  predicate Sorted(s: seq<I64>, lo: int, hi: int)
    requires 0 <= lo && hi < |s|
  {
    forall i, j :: lo <= i < j <= hi ==> s[i] <= s[j]
  }

  predicate AtMost(s: seq<I64>, lo: int, hi: int, p: I64)
    requires 0 <= lo && hi < |s|
  {
    forall i :: lo <= i <= hi ==> s[i] <= p
  }

  predicate AtLeast(s: seq<I64>, lo: int, hi: int, p: I64)
    requires 0 <= lo && hi < |s|
  {
    forall i :: lo <= i <= hi ==> s[i] >= p
  }

  /** b is a with only the entries from lo up to hi rearranged. */
  ghost predicate Rearranged(a: seq<I64>, b: seq<I64>, lo: int, hi: int)
    requires 0 <= lo && hi < |a|
  {
    |b| == |a| && (forall k :: 0 <= k < |a| && !(lo <= k <= hi) ==> b[k] == a[k])
        && (lo <= hi ==> multiset(b[lo..hi + 1]) == multiset(a[lo..hi + 1]))
  }

  /** Every entry of b in the range is one of a's. */
  lemma FromRange(a: seq<I64>, b: seq<I64>, lo: int, hi: int, k: int) returns (r: int)
    requires 0 <= lo <= k <= hi < |a| && Rearranged(a, b, lo, hi)
    ensures lo <= r <= hi && b[k] == a[r]
  {
    assert b[lo..hi + 1][k - lo] in multiset(a[lo..hi + 1]);
    var q :| 0 <= q < hi + 1 - lo && a[lo..hi + 1][q] == b[k];
    r := lo + q;
  }

  lemma KeepsBounds(a: seq<I64>, b: seq<I64>, lo: int, hi: int, p: I64)
    requires 0 <= lo && hi < |a| && Rearranged(a, b, lo, hi)
    ensures AtMost(a, lo, hi, p) ==> AtMost(b, lo, hi, p)
    ensures AtLeast(a, lo, hi, p) ==> AtLeast(b, lo, hi, p)
  {
    forall k | lo <= k <= hi
      ensures (AtMost(a, lo, hi, p) ==> b[k] <= p) && (AtLeast(a, lo, hi, p) ==> b[k] >= p)
    {
      var r := FromRange(a, b, lo, hi, k);
    }
  }

  /** Rearranging a part is rearranging the whole. */
  lemma RearrangedPart(a: seq<I64>, b: seq<I64>, lo: int, hi: int, l: int, h: int)
    requires 0 <= lo <= l <= h <= hi < |a| && Rearranged(a, b, l, h)
    ensures Rearranged(a, b, lo, hi)
  {
    assert b[lo..l] == a[lo..l] && b[h + 1..hi + 1] == a[h + 1..hi + 1];
    assert b[lo..hi + 1] == b[lo..l] + b[l..h + 1] + b[h + 1..hi + 1];
    assert a[lo..hi + 1] == a[lo..l] + a[l..h + 1] + a[h + 1..hi + 1];
  }

  lemma Exchanged(a: seq<I64>, i: int, j: int, lo: int, hi: int)
    requires 0 <= lo <= i <= j <= hi < |a|
    ensures Rearranged(a, a[i := a[j]][j := a[i]], lo, hi)
  {
    var b := a[i := a[j]][j := a[i]];
    assert b[lo..hi + 1] == a[lo..hi + 1][i - lo := a[j]][j - lo := a[i]];
  }

  /** The two scans have come to i and j. What they passed is on its side of the pivot, and each has
      something ahead that will stop it. */
  ghost predicate Scanning(s: seq<I64>, lo: int, hi: int, p: I64, i: int, j: int) {
    && 0 <= lo < hi < |s| && lo <= i <= hi + 1 && lo - 1 <= j <= hi
    && AtMost(s, lo, i - 1, p) && AtLeast(s, j + 1, hi, p)
    && (i <= j ==> (exists r :: i <= r <= hi && s[r] >= p) && exists r :: lo <= r <= j && s[r] <= p)
  }

  /** One exchange. */
  lemma AfterExchange(s: seq<I64>, lo: int, hi: int, p: I64, i: int, j: int)
    requires 0 <= lo < hi < |s| && lo <= i <= j <= hi && AtMost(s, lo, i - 1, p) && AtLeast(s, j + 1, hi, p)
        && s[i] >= p && s[j] <= p
    ensures Scanning(s[i := s[j]][j := s[i]], lo, hi, p, i + 1, j - 1)
  {
    var t := s[i := s[j]][j := s[i]];
    assert t[j] >= p && t[i] <= p;
  }

  method SortI64(s: array<I64>, lo: int, hi: int)
    requires 0 <= lo && hi < s.Length
    modifies s
    ensures Sorted(s[..], lo, hi) && Rearranged(old(s[..]), s[..], lo, hi)
    decreases hi - lo
  {
    hide Scanning, Sorted, Rearranged;
    if lo >= hi {
      Short(s[..], lo, hi);
      return;
    }
    ghost var s0 := s[..];
    var i, j, p := Partition(s, lo, hi);
    ghost var s1 := s[..];
    SortI64(s, lo, j);
    ghost var s2 := s[..];
    SortI64(s, i, hi);
    Combine(s0, s1, s2, s[..], lo, hi, p, i, j);
  }

  lemma Short(s: seq<I64>, lo: int, hi: int)
    requires 0 <= lo && hi < |s| && lo >= hi
    ensures Sorted(s, lo, hi) && Rearranged(s, s, lo, hi)
  {}

  /** Exchanges from both ends until the scans have crossed; both parts are shorter than the whole. */
  method Partition(s: array<I64>, lo: int, hi: int) returns (i: int, j: int, pivot: I64)
    requires 0 <= lo < hi < s.Length
    modifies s
    ensures j < i && lo < i <= hi + 1 && lo - 1 <= j < hi && Scanning(s[..], lo, hi, pivot, i, j)
        && Rearranged(old(s[..]), s[..], lo, hi)
  {
    hide Rearranged;
    ghost var s0 := s[..];
    pivot := s[(lo + hi) / 2];
    i, j := lo, hi;
    assert s[..][(lo + hi) / 2] == pivot;
    Unmoved(s0, lo, hi);
    while i <= j
      invariant Scanning(s[..], lo, hi, pivot, i, j) && Rearranged(s0, s[..], lo, hi)
      invariant (i == lo && j == hi && s[(lo + hi) / 2] == pivot) || (lo < i && j < hi)
      decreases j - i
    {
      i, j := Scan(s, lo, hi, pivot, i, j);
      if i <= j {
        ghost var was := s[..];
        AfterExchange(was, lo, hi, pivot, i, j);
        Exchanged(was, i, j, lo, hi);
        var t := s[i];
        s[i] := s[j];
        s[j] := t;
        assert s[..] == was[i := was[j]][j := was[i]];
        Twice(s0, was, s[..], lo, hi);
        i := i + 1;
        j := j - 1;
      }
    }
  }

  lemma Unmoved(s: seq<I64>, lo: int, hi: int)
    requires 0 <= lo && hi < |s|
    ensures Rearranged(s, s, lo, hi)
  {}

  lemma Twice(a: seq<I64>, b: seq<I64>, c: seq<I64>, lo: int, hi: int)
    requires 0 <= lo && hi < |a| == |b| && Rearranged(a, b, lo, hi) && Rearranged(b, c, lo, hi)
    ensures Rearranged(a, c, lo, hi)
  {}

  /** Both scans; neither leaves the slice. */
  method Scan(s: array<I64>, lo: int, hi: int, pivot: I64, i0: int, j0: int) returns (i: int, j: int)
    requires i0 <= j0 && Scanning(s[..], lo, hi, pivot, i0, j0)
    ensures i0 <= i <= hi && lo <= j <= j0 && s[i] >= pivot && s[j] <= pivot
    ensures AtMost(s[..], lo, i - 1, pivot) && AtLeast(s[..], j + 1, hi, pivot)
    ensures forall r :: i0 <= r <= hi && s[r] >= pivot ==> i <= r
    ensures forall r :: lo <= r <= j0 && s[r] <= pivot ==> r <= j
  {
    i, j := i0, j0;
    ghost var r :| i0 <= r <= hi && s[..][r] >= pivot;
    while s[i] < pivot
      invariant i0 <= i <= r && AtMost(s[..], lo, i - 1, pivot) && forall q :: i0 <= q < i ==> s[q] < pivot
      decreases hi - i
    {
      i := i + 1;
    }
    ghost var r' :| lo <= r' <= j0 && s[..][r'] <= pivot;
    while s[j] > pivot
      invariant r' <= j <= j0 && AtLeast(s[..], j + 1, hi, pivot) && forall q :: j < q <= j0 ==> s[q] > pivot
      decreases j
    {
      j := j - 1;
    }
  }

  /** Both parts sorted, with only pivots between them. */
  lemma Combine(s0: seq<I64>, s1: seq<I64>, s2: seq<I64>, s3: seq<I64>, lo: int, hi: int, p: I64, i: int, j: int)
    requires 0 <= lo < hi < |s0| && |s1| == |s2| == |s0| && Rearranged(s0, s1, lo, hi)
        && Scanning(s1, lo, hi, p, i, j) && j < i && lo < i && j < hi
    requires Rearranged(s1, s2, lo, j) && Sorted(s2, lo, j) && Rearranged(s2, s3, i, hi) && |s3| == |s2|
        && Sorted(s3, i, hi)
    ensures Sorted(s3, lo, hi) && Rearranged(s0, s3, lo, hi)
  {
    KeepsBounds(s1, s2, lo, j, p);
    KeepsBounds(s2, s3, i, hi, p);
    assert AtMost(s3, lo, i - 1, p) && AtLeast(s3, j + 1, hi, p);
    if lo <= j { RearrangedPart(s1, s2, lo, hi, lo, j); } else { Nowhere(s1, s2, lo, j, hi); }
    if i <= hi { RearrangedPart(s2, s3, lo, hi, i, hi); } else { Nowhere(s2, s3, i, hi, hi); }
    hide Sorted;
    assert Sorted(s3, lo, hi) by { SortedTogether(s2, s3, lo, hi, p, i, j); }
    Twice(s0, s1, s2, lo, hi);
    Twice(s0, s2, s3, lo, hi);
  }

  lemma Nowhere(a: seq<I64>, b: seq<I64>, l: int, h: int, hi: int)
    requires 0 <= l && h < |a| && l > h && Rearranged(a, b, l, h)
    ensures a == b
  {}

  lemma SortedTogether(s2: seq<I64>, s3: seq<I64>, lo: int, hi: int, p: I64, i: int, j: int)
    requires 0 <= lo < hi < |s3| == |s2| && j < i && lo < i <= hi + 1 && lo - 1 <= j < hi
    requires Sorted(s2, lo, j) && Rearranged(s2, s3, i, hi) && Sorted(s3, i, hi) && AtMost(s3, lo, i - 1, p)
        && AtLeast(s3, j + 1, hi, p)
    ensures Sorted(s3, lo, hi)
  {
    forall x, y | lo <= x < y <= hi ensures s3[x] <= s3[y] {
      if y <= j { assert s3[x] == s2[x] && s3[y] == s2[y]; }
    }
  }
}
