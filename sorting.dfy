/** `Array.prototype.sort` with a comparator, as the scripts use it. A
    comparator `cmp` is modelled by the relation `le(x, y)`, "`cmp(x, y) <= 0`",
    which every comparator in the scripts makes a total preorder. */
module Sorting {

  ghost predicate Total<T(!new)>(le: (T, T) -> bool) {
    forall x, y :: le(x, y) || le(y, x)
  }

  ghost predicate Transitive<T(!new)>(le: (T, T) -> bool) {
    forall x, y, z :: le(x, y) && le(y, z) ==> le(x, z)
  }

  ghost predicate TotalPreorder<T(!new)>(le: (T, T) -> bool) {
    Total(le) && Transitive(le)
  }

  /** No element comes before one it should come after. */
  ghost predicate Sorted<T>(s: seq<T>, le: (T, T) -> bool) {
    forall i, j :: 0 <= i < j < |s| ==> le(s[i], s[j])
  }

  /** Sorts `a` in place: afterwards it is ordered by `le` and holds the
      same elements as before. */
  method SortBy<T(!new)>(a: array<T>, le: (T, T) -> bool)
    requires TotalPreorder(le)
    modifies a
    ensures Sorted(a[..], le)
    ensures multiset(a[..]) == old(multiset(a[..]))
  {
    var i := 0;
    while i < a.Length
      invariant 0 <= i <= a.Length
      invariant forall k, l :: 0 <= k < l < i ==> le(a[k], a[l])
      invariant multiset(a[..]) == old(multiset(a[..]))
    {
      Insert(a, i, le);
      i := i + 1;
    }
  }

  /** Copies `s` into a fresh array, sorts it in place and returns it: the
      `[...s].sort(cmp)` of the scripts. */
  method SortSeq<T(!new)>(s: seq<T>, le: (T, T) -> bool) returns (t: seq<T>)
    requires TotalPreorder(le)
    ensures Sorted(t, le)
    ensures multiset(t) == multiset(s)
    ensures |t| == |s|
  {
    var a := new T[|s|](j requires 0 <= j < |s| => s[j]);
    assert a[..] == s;
    SortBy(a, le);
    t := a[..];
  }

  /** Moves `a[i]` left into the sorted prefix `a[..i]`. */
  method Insert<T(!new)>(a: array<T>, i: nat, le: (T, T) -> bool)
    requires TotalPreorder(le)
    requires i < a.Length
    requires forall k, l :: 0 <= k < l < i ==> le(a[k], a[l])
    modifies a
    ensures forall k, l :: 0 <= k < l <= i ==> le(a[k], a[l])
    ensures multiset(a[..]) == old(multiset(a[..]))
  {
    var j := i;
    while j > 0 && !le(a[j - 1], a[j])
      invariant 0 <= j <= i
      invariant forall k, l :: 0 <= k < l <= i && k != j && l != j ==> le(a[k], a[l])
      invariant forall l :: j < l <= i ==> le(a[j], a[l])
      invariant multiset(a[..]) == old(multiset(a[..]))
    {
      a[j - 1], a[j] := a[j], a[j - 1];
      j := j - 1;
    }
    forall k, l | 0 <= k < l <= i ensures le(a[k], a[l]) {
      if l == j && k < j - 1 {
        assert le(a[k], a[j - 1]) && le(a[j - 1], a[j]);
      }
    }
  }

  /** Along a list sorted by an order that never puts a larger key first,
      the keys never drop. */
  lemma SortedByKey<T>(s: seq<T>, le: (T, T) -> bool, key: T -> int)
    requires Sorted(s, le)
    requires forall x, y :: le(x, y) ==> key(x) <= key(y)
    ensures forall k, j :: 0 <= k <= j < |s| ==> key(s[k]) <= key(s[j])
  {
    forall k, j | 0 <= k <= j < |s| ensures key(s[k]) <= key(s[j]) {
      if k < j {
        assert le(s[k], s[j]);
      }
    }
  }

  /** A suffix of a sorted list is sorted, and whatever it leaves out comes
      no later than anything it keeps. */
  lemma SuffixKeepsTop<T>(s: seq<T>, k: nat, le: (T, T) -> bool)
    requires Sorted(s, le)
    requires k <= |s|
    ensures Sorted(s[k..], le)
    ensures multiset(s[k..]) <= multiset(s)
    ensures forall x, y :: x in multiset(s) - multiset(s[k..]) && y in s[k..] ==> le(x, y)
  {
    var kept, dropped := s[k..], s[..k];
    assert multiset(s) == multiset(dropped) + multiset(kept) by {
      assert s == dropped + kept;
    }
    assert multiset(s) - multiset(kept) == multiset(dropped);
    forall x, y | x in multiset(dropped) && y in kept ensures le(x, y) {
      var i :| 0 <= i < k && s[i] == x;
      var j :| 0 <= j < |kept| && kept[j] == y;
      assert s[k + j] == y;
    }
  }
}
