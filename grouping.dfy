/** Grouping a list by a key, as the scripts do with a JavaScript `Map`
    filled in a loop: the keys in the order they first appear, and for each
    key the elements with that key in list order. Also sums over the keys
    of a grouping. */
module Grouping {
  import opened Seqs

  /** The elements of `list` whose key is `k`, in list order. */
  function Group<T, K(==)>(list: seq<T>, key: T -> K, k: K): seq<T> {
    Filter(list, x => key(x) == k)
  }

  /** The distinct keys of `list`, in order of first appearance. */
  function Keys<T, K(==)>(list: seq<T>, key: T -> K): seq<K> {
    Dedup(Map(list, key))
  }

  /** A key is a key of the list exactly when some element has it. */
  lemma KeysMembers<T, K>(list: seq<T>, key: T -> K, k: K)
    ensures k in Keys(list, key) <==> exists i :: 0 <= i < |list| && key(list[i]) == k
  {
    var m := Map(list, key);
    if k in Keys(list, key) {
      assert k in m;
      var i :| 0 <= i < |m| && m[i] == k;
      assert key(list[i]) == k;
    }
    if exists i :: 0 <= i < |list| && key(list[i]) == k {
      var i :| 0 <= i < |list| && key(list[i]) == k;
      assert m[i] == k;
    }
  }

  /** An element lies in the group of `k` exactly when it is in the list
      and has key `k`: the groups are disjoint and cover the list. */
  lemma GroupMembers<T, K>(list: seq<T>, key: T -> K, k: K, x: T)
    ensures x in Group(list, key, k) <==> x in list && key(x) == k
  {
    FilterMembership(list, x => key(x) == k, x);
  }

  /** Grouping keeps the list order inside each group: the group of a
      concatenation is the concatenation of the groups. */
  lemma GroupAppend<T, K>(a: seq<T>, b: seq<T>, key: T -> K, k: K)
    ensures Group(a + b, key, k) == Group(a, key, k) + Group(b, key, k)
  {
    FilterAppend(a, b, x => key(x) == k);
  }

  lemma GroupSnoc<T, K>(list: seq<T>, x: T, key: T -> K, k: K)
    ensures Group(list + [x], key, k) == Group(list, key, k) + (if key(x) == k then [x] else [])
  {
    FilterSnoc(list, x, y => key(y) == k);
  }

  lemma KeysSnoc<T, K>(list: seq<T>, x: T, key: T -> K)
    ensures Keys(list + [x], key) == if key(x) in Keys(list, key) then Keys(list, key) else Keys(list, key) + [key(x)]
  {
    MapSnoc(list, x, key);
    DedupSnoc(Map(list, key), key(x));
    KeysMembers(list, key, key(x));
    if key(x) in Map(list, key) {
      var i :| 0 <= i < |list| && Map(list, key)[i] == key(x);
    }
  }

  /** A key that no element has has an empty group. */
  lemma GroupOfOtherKey<T, K>(list: seq<T>, key: T -> K, k: K)
    requires k !in Keys(list, key)
    ensures Group(list, key, k) == []
  {
    if Group(list, key, k) != [] {
      var x := Group(list, key, k)[0];
      GroupMembers(list, key, k, x);
      var i :| 0 <= i < |list| && list[i] == x;
      KeysMembers(list, key, k);
      assert false;
    }
  }

  /** A key of the list has a non-empty group. */
  lemma GroupOfKey<T, K>(list: seq<T>, key: T -> K, k: K)
    requires k in Keys(list, key)
    ensures Group(list, key, k) != []
  {
    KeysMembers(list, key, k);
    var i :| 0 <= i < |list| && key(list[i]) == k;
    GroupMembers(list, key, k, list[i]);
  }

  /** The total size of the groups of `keys`. */
  function Sizes<T, K(==)>(keys: seq<K>, list: seq<T>, key: T -> K): int
    decreases |keys|
  {
    if keys == [] then 0
    else Sizes(keys[..|keys| - 1], list, key) + |Group(list, key, keys[|keys| - 1])|
  }

  /** One more element adds one to the total size of the groups of a list
      of distinct keys that holds its key, and nothing otherwise. */
  lemma {:induction false} SizesSnoc<T, K>(keys: seq<K>, list: seq<T>, x: T, key: T -> K)
    requires Distinct(keys)
    ensures Sizes(keys, list + [x], key) == Sizes(keys, list, key) + (if key(x) in keys then 1 else 0)
    decreases |keys|
  {
    if keys != [] {
      var init, last := keys[..|keys| - 1], keys[|keys| - 1];
      SizesSnoc(init, list, x, key);
      GroupSnoc(list, x, key, last);
      assert keys == init + [last];
      assert last !in init;
    }
  }

  /** The groups partition the list: their sizes add up to its length. */
  lemma {:induction false} GroupSizesSum<T, K>(list: seq<T>, key: T -> K)
    ensures Sizes(Keys(list, key), list, key) == |list|
    decreases |list|
  {
    if list != [] {
      var init, x := list[..|list| - 1], list[|list| - 1];
      assert list == init + [x];
      var ks := Keys(init, key);
      GroupSizesSum(init, key);
      KeysSnoc(init, x, key);
      SizesSnoc(ks, init, x, key);
      assert Sizes(ks, list, key) == |init| + (if key(x) in ks then 1 else 0);
      if key(x) !in ks {
        var kx := key(x);
        GroupOfOtherKey(init, key, kx);
        GroupSnoc(init, x, key, kx);
        assert |Group(list, key, kx)| == 1;
        assert (ks + [kx])[..|ks|] == ks;
        assert Sizes(ks + [kx], list, key) == Sizes(ks, list, key) + |Group(list, key, kx)|;
      }
    }
  }

  /** The total size of the groups of some keys does not depend on the
      order in which the keys are taken. */
  lemma {:induction false} SizesPermutation<T, K>(keys: seq<K>, other: seq<K>, list: seq<T>, key: T -> K)
    requires multiset(keys) == multiset(other)
    ensures Sizes(keys, list, key) == Sizes(other, list, key)
    decreases |keys|
  {
    if keys != [] {
      var init, last := keys[..|keys| - 1], keys[|keys| - 1];
      assert keys == init + [last];
      assert last in multiset(other);
      var j :| 0 <= j < |other| && other[j] == last;
      var rest := other[..j] + other[j + 1..];
      assert other == other[..j] + [last] + other[j + 1..];
      assert multiset(rest) == multiset(other) - multiset{last};
      SizesPermutation(init, rest, list, key);
      SizesRemove(other, j, list, key);
      assert Sizes(keys, list, key) == Sizes(init, list, key) + |Group(list, key, last)|;
      assert Sizes(other, list, key) == Sizes(rest, list, key) + |Group(list, key, last)|;
    }
  }

  lemma SizesRemove<T, K>(keys: seq<K>, j: nat, list: seq<T>, key: T -> K)
    requires j < |keys|
    ensures Sizes(keys, list, key) == Sizes(keys[..j] + keys[j + 1..], list, key) + |Group(list, key, keys[j])|
  {
    SizesAppend(keys[..j] + [keys[j]], keys[j + 1..], list, key);
    SizesAppend(keys[..j], keys[j + 1..], list, key);
    assert keys == keys[..j] + [keys[j]] + keys[j + 1..];
    assert (keys[..j] + [keys[j]])[..j] == keys[..j];
  }

  lemma {:induction false} SizesAppend<T, K>(a: seq<K>, b: seq<K>, list: seq<T>, key: T -> K)
    ensures Sizes(a + b, list, key) == Sizes(a, list, key) + Sizes(b, list, key)
    decreases |b|
  {
    if b == [] {
      assert a + b == a;
    } else {
      var init := b[..|b| - 1];
      SizesAppend(a, init, list, key);
      assert (a + b)[..|a + b| - 1] == a + init;
    }
  }

  /** Taking the keys in any order, the sizes of their groups add up to
      the length of the list. */
  lemma KeysPermutationSizes<T, K>(keys: seq<K>, list: seq<T>, key: T -> K)
    requires multiset(keys) == multiset(Keys(list, key))
    ensures Sizes(keys, list, key) == |list|
  {
    SizesPermutation(keys, Keys(list, key), list, key);
    GroupSizesSum(list, key);
  }

  /** `groups` holds, under each of the keys of `prefix` and under no
      other key, the group of that key. */
  ghost predicate Grouped<T, K(!new)>(keys: seq<K>, groups: map<K, seq<T>>, prefix: seq<T>, key: T -> K) {
    && keys == Keys(prefix, key)
    && (forall k :: k in groups <==> k in keys)
    && (forall k :: k in groups ==> groups[k] == Group(prefix, key, k))
  }

  /** Taking one more element: a new key joins the keys with an empty
      group, and the element joins its key's group. */
  lemma GroupedSnoc<T, K(!new)>(keys: seq<K>, groups: map<K, seq<T>>, prefix: seq<T>, x: T, key: T -> K)
    requires Grouped(keys, groups, prefix, key)
    ensures var k := key(x);
      var started := if k in groups then groups else groups[k := []];
      Grouped(if k in groups then keys else keys + [k], started[k := started[k] + [x]], prefix + [x], key)
  {
    var k := key(x);
    KeysSnoc(prefix, x, key);
    if k !in groups {
      GroupOfOtherKey(prefix, key, k);
    }
    forall k' ensures Group(prefix + [x], key, k') == Group(prefix, key, k') + (if k == k' then [x] else []) {
      GroupSnoc(prefix, x, key, k');
    }
  }

  /** `groupBy`: one pass over the list, starting a group at a key's first
      element and appending each later element to its key's group. */
  method GroupBy<T, K(==, !new)>(list: seq<T>, key: T -> K) returns (keys: seq<K>, groups: map<K, seq<T>>)
    ensures keys == Keys(list, key)
    ensures forall k :: k in groups <==> k in keys
    ensures forall k :: k in groups ==> groups[k] == Group(list, key, k)
  {
    keys, groups := [], map[];
    var i := 0;
    while i < |list|
      invariant 0 <= i <= |list|
      invariant Grouped(keys, groups, list[..i], key)
    {
      var x := list[i];
      var k := key(x);
      GroupedSnoc(keys, groups, list[..i], x, key);
      TakeNext(list, i);
      if k !in groups {
        keys := keys + [k];
        groups := groups[k := []];
      }
      groups := groups[k := groups[k] + [x]];
      i := i + 1;
    }
    assert list[..i] == list;
  }
}
