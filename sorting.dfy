/** Sorting under a total order, used where the code calls `std::sort`: on a
    copy of the returns (order of the reals) and on (value, index) pairs
    (lexicographic order). Under a total order the sorted permutation of a
    sequence is unique, so it does not matter which algorithm produces it;
    `SortedCopy` is its definition and `Sort` computes it in place. */
module Sorting {

  /** le is total, antisymmetric and transitive. */
  ghost predicate TotalOrder<T(!new)>(le: (T, T) -> bool)
  {
    && (forall a, b :: le(a, b) || le(b, a))
    && (forall a, b :: le(a, b) && le(b, a) ==> a == b)
    && (forall a, b, c :: le(a, b) && le(b, c) ==> le(a, c))
  }

  predicate SortedBy<T>(s: seq<T>, le: (T, T) -> bool)
  {
    forall i, j :: 0 <= i < j < |s| ==> le(s[i], s[j])
  }

  /** x inserted into t before the first element that is not below or equal
      to it. */
  function Insert<T>(x: T, t: seq<T>, le: (T, T) -> bool): (r: seq<T>)
    ensures multiset(r) == multiset(t) + multiset{x}
  {
    if |t| == 0 then [x]
    else if le(t[0], x) then
      assert t == [t[0]] + t[1..];
      [t[0]] + Insert(x, t[1..], le)
    else
      [x] + t
  }

  lemma SortedCons<T>(y: T, s: seq<T>, le: (T, T) -> bool)
    requires SortedBy(s, le) && forall k :: 0 <= k < |s| ==> le(y, s[k])
    ensures SortedBy([y] + s, le)
  {
  }

  /** Inserting into a sorted sequence keeps it sorted. */
  lemma {:induction false} InsertSorted<T(!new)>(x: T, t: seq<T>, le: (T, T) -> bool)
    requires TotalOrder(le) && SortedBy(t, le)
    ensures SortedBy(Insert(x, t, le), le)
  {
    if |t| > 0 {
      if le(t[0], x) {
        var rest := Insert(x, t[1..], le);
        InsertSorted(x, t[1..], le);
        forall k | 0 <= k < |rest| ensures le(t[0], rest[k]) {
          assert rest[k] in multiset(t[1..]) + multiset{x};
          if rest[k] != x {
            assert rest[k] in t[1..];
          }
        }
        SortedCons(t[0], rest, le);
      } else {
        assert le(x, t[0]);
        SortedCons(x, t, le);
      }
    }
  }

  /** The sorted permutation of s. */
  function SortedCopy<T(!new)>(s: seq<T>, le: (T, T) -> bool): (t: seq<T>)
    requires TotalOrder(le)
    ensures SortedBy(t, le) && multiset(t) == multiset(s)
  {
    if |s| == 0 then []
    else
      assert s == [s[0]] + s[1..];
      InsertSorted(s[0], SortedCopy(s[1..], le), le);
      Insert(s[0], SortedCopy(s[1..], le), le)
  }

  lemma SortedTail<T>(s: seq<T>, le: (T, T) -> bool)
    requires |s| > 0 && SortedBy(s, le)
    ensures SortedBy(s[1..], le)
  {
    assert forall i :: 0 <= i < |s| - 1 ==> s[1..][i] == s[i + 1];
  }

  /** Two sorted sequences with the same elements start with the same one. */
  lemma SortedHeads<T(!new)>(a: seq<T>, b: seq<T>, le: (T, T) -> bool)
    requires TotalOrder(le) && SortedBy(a, le) && SortedBy(b, le)
    requires multiset(a) == multiset(b) && |a| > 0
    ensures |b| > 0 && a[0] == b[0]
  {
    assert a[0] in multiset(b) && b[0] in multiset(a);
    assert le(b[0], a[0]) && le(a[0], b[0]);
  }

  lemma SameTails<T>(a: seq<T>, b: seq<T>)
    requires multiset(a) == multiset(b) && |a| > 0 && |b| > 0 && a[0] == b[0]
    ensures multiset(a[1..]) == multiset(b[1..])
  {
    assert a == [a[0]] + a[1..] && b == [b[0]] + b[1..];
    assert multiset(a[1..]) == multiset(a) - multiset{a[0]};
    assert multiset(b[1..]) == multiset(b) - multiset{b[0]};
  }

  /** Under a total order, two sorted permutations of one multiset are equal. */
  lemma {:induction false} SortedUnique<T(!new)>(a: seq<T>, b: seq<T>, le: (T, T) -> bool)
    requires TotalOrder(le) && SortedBy(a, le) && SortedBy(b, le)
    requires multiset(a) == multiset(b)
    ensures a == b
    decreases |a|
  {
    assert |a| == |multiset(a)| == |b|;
    if |a| > 0 {
      SortedHeads(a, b, le);
      SameTails(a, b);
      SortedTail(a, le);
      SortedTail(b, le);
      SortedUnique(a[1..], b[1..], le);
      assert a == [a[0]] + a[1..] && b == [b[0]] + b[1..];
    }
  }

  /** The sorted permutation of s is exactly the one sorted sequence with the
      elements of s. */
  lemma SortedCopyIsUnique<T(!new)>(s: seq<T>, t: seq<T>, le: (T, T) -> bool)
    requires TotalOrder(le)
    ensures SortedBy(t, le) && multiset(t) == multiset(s) <==> t == SortedCopy(s, le)
  {
    if SortedBy(t, le) && multiset(t) == multiset(s) {
      SortedUnique(t, SortedCopy(s, le), le);
    }
  }

  /** Sorts a in place (insertion sort by adjacent exchanges). */
  method Sort<T(!new)>(a: array<T>, le: (T, T) -> bool)
    requires TotalOrder(le)
    modifies a
    ensures a[..] == SortedCopy(old(a[..]), le)
  {
    for i := 0 to a.Length
      invariant SortedBy(a[..i], le)
      invariant multiset(a[..]) == multiset(old(a[..]))
    {
      SinkInto(a, i, le);
    }
    assert a[..a.Length] == a[..];
    SortedUnique(a[..], SortedCopy(old(a[..]), le), le);
  }

  /** Moves a[i] down into the sorted prefix a[..i]. */
  method SinkInto<T(!new)>(a: array<T>, i: nat, le: (T, T) -> bool)
    requires TotalOrder(le) && i < a.Length && SortedBy(a[..i], le)
    modifies a
    ensures SortedBy(a[..i + 1], le)
    ensures multiset(a[..]) == multiset(old(a[..]))
  {
    var j := i;
    while j > 0 && !le(a[j - 1], a[j])
      invariant 0 <= j <= i
      invariant multiset(a[..]) == multiset(old(a[..]))
      invariant Sinking(a[..], i, j, le)
    {
      ghost var before := a[..];
      a[j - 1], a[j] := a[j], a[j - 1];
      assert a[..] == before[j - 1 := before[j]][j := before[j - 1]];
      SinkStep(before, i, j, le);
      SwapPermutes(before, j);
      j := j - 1;
    }
    SinkDone(a[..], i, j, le);
  }

  /** s[..i + 1] is sorted except for the element at j, which is below or
      equal to everything after it. */
  ghost predicate Sinking<T>(s: seq<T>, i: nat, j: nat, le: (T, T) -> bool)
    requires j <= i < |s|
  {
    && (forall k, l :: 0 <= k < l <= i && k != j && l != j ==> le(s[k], s[l]))
    && (forall l :: j < l <= i ==> le(s[j], s[l]))
  }

  lemma SinkStep<T(!new)>(s: seq<T>, i: nat, j: nat, le: (T, T) -> bool)
    requires TotalOrder(le) && 0 < j <= i < |s| && Sinking(s, i, j, le) && !le(s[j - 1], s[j])
    ensures Sinking(s[j - 1 := s[j]][j := s[j - 1]], i, j - 1, le)
  {
  }

  lemma SwapPermutes<T>(s: seq<T>, j: nat)
    requires 0 < j < |s|
    ensures multiset(s[j - 1 := s[j]][j := s[j - 1]]) == multiset(s)
  {
  }

  lemma SinkDone<T(!new)>(s: seq<T>, i: nat, j: nat, le: (T, T) -> bool)
    requires TotalOrder(le) && j <= i < |s| && Sinking(s, i, j, le)
    requires j == 0 || le(s[j - 1], s[j])
    ensures SortedBy(s[..i + 1], le)
  {
  }

  // ---------------------------------------------------------------------
  // Counting and distinctness survive sorting

  /** How many elements e of s have rel(e, x). */
  function CountBefore<T>(s: seq<T>, x: T, rel: (T, T) -> bool): nat
  {
    if |s| == 0 then 0 else (if rel(s[0], x) then 1 else 0) + CountBefore(s[1..], x, rel)
  }

  lemma {:induction false} CountBeforeInsert<T>(y: T, t: seq<T>, x: T, le: (T, T) -> bool, rel: (T, T) -> bool)
    ensures CountBefore(Insert(y, t, le), x, rel) == CountBefore(t, x, rel) + (if rel(y, x) then 1 else 0)
  {
    if |t| > 0 && le(t[0], y) {
      CountBeforeInsert(y, t[1..], x, le, rel);
      assert ([t[0]] + Insert(y, t[1..], le))[1..] == Insert(y, t[1..], le);
    }
  }

  /** Sorting does not change how many elements stand in any relation to x. */
  lemma {:induction false} CountBeforeSortedCopy<T(!new)>(s: seq<T>, x: T, le: (T, T) -> bool, rel: (T, T) -> bool)
    requires TotalOrder(le)
    ensures CountBefore(SortedCopy(s, le), x, rel) == CountBefore(s, x, rel)
  {
    if |s| > 0 {
      CountBeforeSortedCopy(s[1..], x, le, rel);
      CountBeforeInsert(s[0], SortedCopy(s[1..], le), x, le, rel);
    }
  }

  lemma {:induction false} CountNone<T>(s: seq<T>, x: T, rel: (T, T) -> bool)
    requires forall i :: 0 <= i < |s| ==> !rel(s[i], x)
    ensures CountBefore(s, x, rel) == 0
  {
    if |s| > 0 {
      CountNone(s[1..], x, rel);
    }
  }

  predicate Distinct<T(==)>(s: seq<T>)
  {
    forall i, j :: 0 <= i < j < |s| ==> s[i] != s[j]
  }

  lemma {:induction false} InsertDistinct<T>(y: T, t: seq<T>, le: (T, T) -> bool)
    requires Distinct(t) && y !in t
    ensures Distinct(Insert(y, t, le))
  {
    if |t| > 0 && le(t[0], y) {
      var rest := Insert(y, t[1..], le);
      InsertDistinct(y, t[1..], le);
      assert t[0] !in multiset(t[1..]) + multiset{y};
      assert t[0] !in rest;
      assert forall k :: 0 <= k < |rest| ==> ([t[0]] + rest)[k + 1] == rest[k];
    }
  }

  /** The sorted copy of a sequence without repetitions has none either. */
  lemma {:induction false} SortedCopyDistinct<T(!new)>(s: seq<T>, le: (T, T) -> bool)
    requires TotalOrder(le) && Distinct(s)
    ensures Distinct(SortedCopy(s, le))
  {
    if |s| > 0 {
      assert Distinct(s[1..]);
      SortedCopyDistinct(s[1..], le);
      assert s[0] !in s[1..];
      assert s[0] !in multiset(SortedCopy(s[1..], le));
      InsertDistinct(s[0], SortedCopy(s[1..], le), le);
    }
  }

  /** The order of the reals. */
  function RealLe(a: real, b: real): bool { a <= b }

  function RealLt(a: real, b: real): bool { a < b }

  lemma RealLeIsTotal()
    ensures TotalOrder(RealLe)
  {
  }
}
