/** Python's `list.sort(key=…)` and `sorted(…, key=…)`: a stable insertion
    sort by a total preorder, proved to sort and to permute its input. */
module Sorting {

  /** `le` is total and transitive, as the order on Python sort keys is. */
  ghost predicate TotalPreorder<T(!new)>(le: (T, T) -> bool)
  {
    && (forall a, b :: le(a, b) || le(b, a))
    && (forall a, b, c :: le(a, b) && le(b, c) ==> le(a, c))
  }

  predicate SortedBy<T>(s: seq<T>, le: (T, T) -> bool)
  {
    forall i, j :: 0 <= i < j < |s| ==> le(s[i], s[j])
  }

  /** Inserts `x` after every element of `s` that is not above it, so that
      equal keys keep their order of arrival. */
  function Insert<T(==,!new)>(x: T, s: seq<T>, le: (T, T) -> bool): (r: seq<T>)
    requires TotalPreorder(le)
    requires SortedBy(s, le)
    ensures SortedBy(r, le)
    ensures multiset(r) == multiset(s) + multiset{x}
    ensures forall i :: 0 <= i < |r| ==> r[i] == x || r[i] in s
    ensures |r| == |s| + 1
  {
    if s == [] then [x]
    else if le(s[0], x) then
      var tail := Insert(x, s[1..], le);
      assert s == [s[0]] + s[1..];
      assert forall j :: 0 <= j < |tail| ==> le(s[0], tail[j]) by {
        forall j | 0 <= j < |tail| ensures le(s[0], tail[j]) {
          if tail[j] != x {
            var k :| 0 <= k < |s[1..]| && s[1..][k] == tail[j];
            assert s[k + 1] == tail[j];
          }
        }
      }
      ConsSorted(s[0], tail, le);
      [s[0]] + tail
    else
      ConsSorted(x, s, le);
      [x] + s
  }

  /** A head below every element of a sorted tail gives a sorted sequence. */
  lemma ConsSorted<T>(h: T, t: seq<T>, le: (T, T) -> bool)
    requires SortedBy(t, le)
    requires forall j :: 0 <= j < |t| ==> le(h, t[j])
    ensures SortedBy([h] + t, le)
  {
    forall i, j | 0 <= i < j < |[h] + t| ensures le(([h] + t)[i], ([h] + t)[j]) {
      if i > 0 {
        assert ([h] + t)[i] == t[i - 1];
      }
      assert ([h] + t)[j] == t[j - 1];
    }
  }

  /** The sorted copy of `s`; later elements are inserted behind equal
      earlier ones, which makes the sort stable. */
  function SortBy<T(==,!new)>(s: seq<T>, le: (T, T) -> bool): (r: seq<T>)
    requires TotalPreorder(le)
    ensures SortedBy(r, le)
    ensures multiset(r) == multiset(s)
    ensures |r| == |s|
  {
    if s == [] then []
    else
      var init := s[..|s| - 1];
      assert s == init + [s[|s| - 1]];
      Insert(s[|s| - 1], SortBy(init, le), le)
  }

  /** Two equal elements at distinct positions count twice. */
  lemma {:induction false} TwoOccurrences<T>(s: seq<T>, i: int, j: int)
    requires 0 <= i < j < |s| && s[i] == s[j]
    ensures multiset(s)[s[i]] >= 2
  {
    assert s == s[..j] + [s[j]] + s[j + 1..];
    assert s[i] in s[..j];
    assert multiset(s) == multiset(s[..j]) + multiset{s[j]} + multiset(s[j + 1..]);
  }

  /** A permutation of a sequence without repeated elements has none either. */
  lemma PermutationKeepsDistinct<T>(s: seq<T>, r: seq<T>)
    requires multiset(s) == multiset(r)
    requires forall i, j :: 0 <= i < j < |s| ==> s[i] != s[j]
    ensures forall i, j :: 0 <= i < j < |r| ==> r[i] != r[j]
  {
    forall i, j | 0 <= i < j < |r|
      ensures r[i] != r[j]
    {
      if r[i] == r[j] {
        TwoOccurrences(r, i, j);
        assert r[i] in multiset(s);
        var k :| 0 <= k < |s| && s[k] == r[i];
        CountOne(s, k);
        assert false;
      }
    }
  }

  /** In a sequence without repeats every element counts once. */
  lemma {:induction false} CountOne<T>(s: seq<T>, k: int)
    requires 0 <= k < |s|
    requires forall i, j :: 0 <= i < j < |s| ==> s[i] != s[j]
    ensures multiset(s)[s[k]] == 1
  {
    assert s == s[..k] + [s[k]] + s[k + 1..];
    assert multiset(s) == multiset(s[..k]) + multiset{s[k]} + multiset(s[k + 1..]);
    assert s[k] !in s[..k];
    assert s[k] !in s[k + 1..];
  }
}
