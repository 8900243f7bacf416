/** Kotlin's `distinct()`, which the app's aggregates are built from. Sequences are built from the right, the way a loop
    appends to a mutable list. */
module Lists {

  predicate NoDuplicates<T(==)>(s: seq<T>) {
    forall i, j :: 0 <= i < j < |s| ==> s[i] != s[j]
  }

  /** Position of the first occurrence of `x` in `s`. */
  function FirstIndex<T(==)>(s: seq<T>, x: T): (r: nat)
    requires x in s
    ensures r < |s| && s[r] == x && x !in s[..r]
  {
    if s[0] == x then 0 else 1 + FirstIndex(s[1..], x)
  }

  /** `distinct()`: the first occurrence of every element, in the order of `s`. */
  function Distinct<T(==)>(s: seq<T>): (r: seq<T>)
    ensures |r| <= |s|
  {
    if s == [] then []
    else
      var prefix := Distinct(s[..|s| - 1]);
      var last := s[|s| - 1];
      if last in prefix then prefix else prefix + [last]
  }

  /** `distinct()` keeps first occurrences in their original order: an element listed
      earlier in the result first occurs earlier in the input. */
  lemma {:induction false} DistinctKeepsFirstOccurrenceOrder<T>(s: seq<T>, i: int, j: int)
    requires 0 <= i < j < |Distinct(s)|
    ensures Distinct(s)[i] in s && Distinct(s)[j] in s
    ensures FirstIndex(s, Distinct(s)[i]) < FirstIndex(s, Distinct(s)[j])
  {
    var n := |s| - 1;
    var prefix := Distinct(s[..n]);
    var last := s[n];
    assert s == s[..n] + [last];
    DistinctMembers(s, Distinct(s)[i]);
    DistinctMembers(s, Distinct(s)[j]);
    DistinctMembers(s[..n], Distinct(s)[i]);
    DistinctMembers(s[..n], last);
    FirstIndexOfPrefix(s, n, Distinct(s)[i]);
    if j < |prefix| {
      DistinctKeepsFirstOccurrenceOrder(s[..n], i, j);
      FirstIndexOfPrefix(s, n, Distinct(s)[j]);
    } else {
      // the new element `last` does not occur in `s[..n]`, so it first occurs at n
      assert Distinct(s)[j] == last && last !in s[..n];
      FirstIndexUnique(s, last, n);
    }
  }

  /** An element of a prefix first occurs at the same position in the whole sequence. */
  lemma FirstIndexOfPrefix<T>(s: seq<T>, n: int, x: T)
    requires 0 <= n <= |s| && x in s[..n]
    ensures x in s && FirstIndex(s, x) == FirstIndex(s[..n], x)
  {
    var k := FirstIndex(s[..n], x);
    assert s[..n][..k] == s[..k];
    FirstIndexUnique(s, x, k);
  }

  /** The first occurrence is the only position holding `x` with no `x` before it. */
  lemma FirstIndexUnique<T>(s: seq<T>, x: T, m: int)
    requires 0 <= m < |s| && s[m] == x && x !in s[..m]
    ensures FirstIndex(s, x) == m
  {
    var k := FirstIndex(s, x);
    assert forall p :: 0 <= p < m ==> s[..m][p] == s[p];
    assert forall p :: 0 <= p < k ==> s[..k][p] == s[p];
  }

  /** A sequence that already has no duplicates is its own `distinct()`. */
  lemma {:induction false} DistinctOfDistinct<T>(s: seq<T>)
    requires NoDuplicates(s)
    ensures Distinct(s) == s
  {
    if s != [] {
      var n := |s| - 1;
      DistinctOfDistinct(s[..n]);
      assert forall k :: 0 <= k < n ==> s[..n][k] != s[n];
      assert s == s[..n] + [s[n]];
    }
  }

  /** `distinct()` never lists an element twice. */
  lemma {:induction false} DistinctNoDuplicates<T>(t: seq<T>)
    ensures NoDuplicates(Distinct(t))
  {
    if t != [] {
      var n := |t| - 1;
      DistinctNoDuplicates(t[..n]);
    }
  }

  /** `distinct()` keeps exactly the elements of its input. */
  lemma {:induction false} DistinctMembers<T>(t: seq<T>, x: T)
    ensures x in Distinct(t) <==> x in t
  {
    if t != [] {
      var n := |t| - 1;
      DistinctMembers(t[..n], x);
      assert t == t[..n] + [t[n]];
    }
  }

  /** One more element at the end: kept only when it is new. */
  lemma DistinctSnoc<T>(t: seq<T>, x: T)
    ensures Distinct(t + [x]) == if x in Distinct(t) then Distinct(t) else Distinct(t) + [x]
  {
    assert (t + [x])[..|t + [x]| - 1] == t;
  }

  /** Appending elements that are all present already changes nothing. */
  lemma {:induction false} DistinctAppendPresent<T>(s: seq<T>, u: seq<T>)
    requires forall i :: 0 <= i < |u| ==> u[i] in s
    ensures Distinct(s + u) == Distinct(s)
  {
    if u != [] {
      var n := |u| - 1;
      var t := s + u[..n];
      DistinctAppendPresent(s, u[..n]);
      assert s + u == t + [u[n]];
      DistinctSnoc(t, u[n]);
      var k := FirstIndex(s, u[n]);
      assert t[k] == u[n];
      DistinctMembers(t, u[n]);
    } else {
      assert s + u == s;
    }
  }

  /** Dropping the last element keeps a sequence duplicate-free, and that element
      does not occur before it. */
  lemma NoDuplicatesInit<T>(u: seq<T>)
    requires NoDuplicates(u) && u != []
    ensures NoDuplicates(u[..|u| - 1]) && u[|u| - 1] !in u[..|u| - 1]
  {
    var n := |u| - 1;
    assert forall k :: 0 <= k < n ==> u[..n][k] == u[k];
  }

  /** Every element of `u` is new: absent from `s` and from the part of `u` before it. */
  predicate AllFresh<T(==)>(s: seq<T>, u: seq<T>)
    decreases |u|
  {
    u == [] || (AllFresh(s, u[..|u| - 1]) && u[|u| - 1] !in s + u[..|u| - 1])
  }

  /** A duplicate-free block sharing nothing with `s` is all fresh. */
  lemma {:induction false} FreshBlock<T>(s: seq<T>, u: seq<T>)
    requires forall i :: 0 <= i < |u| ==> u[i] !in s
    requires NoDuplicates(u)
    ensures AllFresh(s, u)
  {
    if u != [] {
      var n := |u| - 1;
      NoDuplicatesInit(u);
      assert forall i :: 0 <= i < n ==> u[..n][i] == u[i];
      FreshBlock(s, u[..n]);
    }
  }

  /** Appending an all-fresh block appends it whole. */
  lemma {:induction false} DistinctAppendFresh<T>(s: seq<T>, u: seq<T>)
    requires AllFresh(s, u)
    ensures Distinct(s + u) == Distinct(s) + u
  {
    if u == [] {
      assert s + u == s;
    } else {
      var n := |u| - 1;
      DistinctAppendFresh(s, u[..n]);
      DistinctAppendNew(s, u[..n], u[n]);
      assert u == u[..n] + [u[n]];
    }
  }

  lemma DistinctAppendNew<T>(s: seq<T>, v: seq<T>, x: T)
    requires Distinct(s + v) == Distinct(s) + v && x !in s + v
    ensures Distinct(s + (v + [x])) == Distinct(s) + (v + [x])
  {
    DistinctMembers(s + v, x);
    DistinctSnoc(s + v, x);
    assert s + (v + [x]) == (s + v) + [x];
    assert Distinct(s) + (v + [x]) == (Distinct(s) + v) + [x];
  }

  /** `distinct()` has one entry per different element. */
  lemma {:induction false} DistinctCardinality<T>(s: seq<T>)
    ensures |Distinct(s)| == |set x | x in s|
  {
    if s == [] {
      assert (set x | x in s) == {};
    } else {
      var n := |s| - 1;
      DistinctCardinality(s[..n]);
      DistinctMembers(s[..n], s[n]);
      assert s == s[..n] + [s[n]];
      assert (set x | x in s) == (set x | x in s[..n]) + {s[n]};
    }
  }

  /** Splitting off the last element of the appended part. */
  lemma AppendSnoc<T>(a: seq<T>, e: seq<T>)
    requires e != []
    ensures a + e == (a + e[..|e| - 1]) + [e[|e| - 1]]
  {
    assert e == e[..|e| - 1] + [e[|e| - 1]];
  }

  /** The last element of a concatenation, and what comes before it. */
  lemma AppendInit<T>(a: seq<T>, b: seq<T>)
    requires b != []
    ensures (a + b)[..|a + b| - 1] == a + b[..|b| - 1]
    ensures (a + b)[|a + b| - 1] == b[|b| - 1]
  {
  }

  /** The suffix from `k` of a list with one more element. */
  lemma SuffixSnoc<T>(a: seq<T>, x: T, k: int)
    requires 0 <= k <= |a|
    ensures (a + [x])[k..] == a[k..] + [x]
  {
  }

  /** A list is its prefix, one element and the rest. */
  lemma SplitAt<T>(s: seq<T>, k: int)
    requires 0 <= k < |s|
    ensures s == (s[..k] + [s[k]]) + s[k + 1..]
  {
  }

  /** The members of a non-empty list: those before its last element, and that one. */
  lemma MembersOfInit<T>(s: seq<T>)
    requires s != []
    ensures forall x :: x in s <==> x in s[..|s| - 1] || x == s[|s| - 1]
  {
    assert s == s[..|s| - 1] + [s[|s| - 1]];
  }
}
