/**
 * Grouping a list by a key, as the pipeline does with a `Map` filled in a
 * `forEach`: each key's elements in input order, and the keys in order of
 * first appearance (the insertion order a `Map` iterates in). An element
 * whose key is `None` is skipped.
 */
module Grouping {
  import opened Wrappers
  import opened Sequences

  function HasKey<T, K(==)>(key: T -> Option<K>, k: K): T -> bool {
    x => key(x) == Some(k)
  }

  /** The elements with key `k`, in input order. */
  function Group<T, K(==)>(s: seq<T>, key: T -> Option<K>, k: K): (g: seq<T>)
    ensures |g| <= |s|
    ensures forall i :: 0 <= i < |g| ==> key(g[i]) == Some(k)
  {
    Filter(s, HasKey(key, k))
  }

  /** The keys in order of first appearance. */
  function KeyOrder<T, K(==)>(s: seq<T>, key: T -> Option<K>): (order: seq<K>)
    ensures forall i, j :: 0 <= i < j < |order| ==> order[i] != order[j]
  {
    if s == [] then []
    else
      var order := KeyOrder(s[..|s| - 1], key);
      var k := key(s[|s| - 1]);
      if k.Some? && k.value !in order then order + [k.value] else order
  }

  /** An element is in its key's group exactly when it occurs. */
  lemma GroupMember<T, K>(s: seq<T>, key: T -> Option<K>, k: K, x: T)
    ensures x in Group(s, key, k) <==> x in s && key(x) == Some(k)
  {
    FilterMember(s, HasKey(key, k), x);
  }

  lemma GroupSnoc<T, K>(s: seq<T>, x: T, key: T -> Option<K>, k: K)
    ensures Group(s + [x], key, k) == Group(s, key, k) + if key(x) == Some(k) then [x] else []
  {
    FilterSnoc(s, x, HasKey(key, k));
  }

  lemma KeyOrderSnoc<T, K>(s: seq<T>, x: T, key: T -> Option<K>)
    ensures var order := KeyOrder(s, key);
            KeyOrder(s + [x], key) ==
              if key(x).Some? && key(x).value !in order then order + [key(x).value] else order
  {
    assert (s + [x])[..|s|] == s;
  }

  /** A key is listed exactly when its group is not empty. */
  lemma {:induction false} KeyOrderMember<T, K>(s: seq<T>, key: T -> Option<K>, k: K)
    ensures k in KeyOrder(s, key) <==> Group(s, key, k) != []
  {
    if s != [] {
      var init, last := s[..|s| - 1], s[|s| - 1];
      assert s == init + [last];
      KeyOrderMember(init, key, k);
      GroupSnoc(init, last, key, k);
    }
  }

  lemma KeyOrderGroups<T, K>(s: seq<T>, key: T -> Option<K>)
    ensures forall k :: k in KeyOrder(s, key) ==> Group(s, key, k) != []
  {
    forall k | k in KeyOrder(s, key) ensures Group(s, key, k) != [] {
      KeyOrderMember(s, key, k);
    }
  }

  /** The number of elements in the groups of the keys `order`. */
  function GroupSizes<T, K(==)>(s: seq<T>, key: T -> Option<K>, order: seq<K>): nat {
    if order == [] then 0
    else GroupSizes(s, key, order[..|order| - 1]) + |Group(s, key, order[|order| - 1])|
  }

  /** One more element adds one to the size of its key, if listed. */
  lemma {:induction false} GroupSizesSnoc<T, K>(s: seq<T>, x: T, key: T -> Option<K>, order: seq<K>)
    requires forall i, j :: 0 <= i < j < |order| ==> order[i] != order[j]
    ensures GroupSizes(s + [x], key, order) ==
            GroupSizes(s, key, order) + if key(x).Some? && key(x).value in order then 1 else 0
  {
    if order != [] {
      var init, last := order[..|order| - 1], order[|order| - 1];
      assert order == init + [last];
      GroupSizesSnoc(s, x, key, init);
      GroupSnoc(s, x, key, last);
      assert key(x) == Some(last) ==> last !in init;
    }
  }

  /** When every element has a key, the groups partition the list: their
      sizes add up to its length. */
  lemma {:induction false} GroupSizesComplete<T, K>(s: seq<T>, key: T -> Option<K>)
    requires forall i :: 0 <= i < |s| ==> key(s[i]).Some?
    ensures GroupSizes(s, key, KeyOrder(s, key)) == |s|
  {
    if s != [] {
      var init, x := s[..|s| - 1], s[|s| - 1];
      assert s == init + [x];
      var order := KeyOrder(init, key);
      GroupSizesComplete(init, key);
      GroupSizesSnoc(init, x, key, order);
      var k := key(x).value;
      if k !in order {
        KeyOrderMember(init, key, k);
        GroupSnoc(init, x, key, k);
        assert (order + [k])[..|order|] == order;
      }
    }
  }

  /** A `Map` from key to list, filled from the elements `s`: its key order
      and, under each key, that key's elements in order. */
  ghost predicate GroupedLists<T, K(!new)>(s: seq<T>, key: T -> Option<K>, groups: map<K, seq<T>>, order: seq<K>) {
    && order == KeyOrder(s, key)
    && (forall k :: k in groups <==> k in order)
    && (forall k :: k in groups ==> groups[k] == Group(s, key, k))
  }

  /** `(map.get(k) ?? []).push(x); map.set(k, list)` keeps the map in step
      with the elements seen; a new key is appended to the key order. */
  lemma GroupedListsStep<T, K(!new)>(s: seq<T>, x: T, key: T -> Option<K>, groups: map<K, seq<T>>, order: seq<K>)
    requires GroupedLists(s, key, groups, order) && key(x).Some?
    ensures var k := key(x).value;
            GroupedLists(s + [x], key, groups[k := (if k in groups then groups[k] else []) + [x]],
                         if k in groups then order else order + [k])
  {
    var k := key(x).value;
    KeyOrderSnoc(s, x, key);
    if k !in groups {
      KeyOrderMember(s, key, k);
    }
    forall k' ensures Group(s + [x], key, k') == Group(s, key, k') + if key(x) == Some(k') then [x] else [] {
      GroupSnoc(s, x, key, k');
    }
  }
}
