/**
 * Decade lists and value extents: the distinct values of a list in
 * ascending order (a `Set` filled in a `forEach`, then sorted with
 * `(a, b) => a - b`), and the least and greatest value of a list, which is
 * what d3's `extent` yields for a list of numbers.
 */
module Ranges {
  import opened Sorting
  import opened Sequences

  predicate StrictlyAscending(s: seq<int>) {
    forall i, j :: 0 <= i < j < |s| ==> s[i] < s[j]
  }

  /** The comparator `a - b`: smaller first. */
  predicate IntBefore(a: int, b: int) {
    a < b
  }

  function Id(x: int): int {
    x
  }

  /** The distinct values, each once, in ascending order. */
  method SortedDistinct(values: seq<int>) returns (r: seq<int>)
    ensures StrictlyAscending(r)
    ensures forall d :: d in r <==> d in values
  {
    // The `Set`, as its insertion order.
    var inserted: seq<int> := [];
    for i := 0 to |values|
      invariant forall d :: d in inserted <==> d in values[..i]
      invariant DistinctKeys(inserted, Id)
    {
      assert values[..i + 1] == values[..i] + [values[i]];
      if values[i] !in inserted {
        inserted := inserted + [values[i]];
      }
    }
    assert values[..|values|] == values;
    r := SortBy(inserted, IntBefore);
    SortBySorted(inserted, IntBefore);
    DistinctPermutation(inserted, r, Id);
    forall d ensures d in r <==> d in inserted {
      SortByMembers(inserted, IntBefore, d);
    }
  }

  /** An ascending list is determined by its elements: the result of
      `SortedDistinct` is the only list with both of its properties. */
  lemma {:induction false} AscendingUnique(a: seq<int>, b: seq<int>)
    requires StrictlyAscending(a) && StrictlyAscending(b)
    requires forall d :: d in a <==> d in b
    ensures a == b
  {
    if a != [] { assert a[0] in a; }
    if b != [] { assert b[0] in b; }
    if a != [] && b != [] {
      assert a[0] == b[0];
      var a', b' := a[1..], b[1..];
      forall d ensures d in a' <==> d in b' {
        if d in a' {
          assert d in b && d != b[0];
        }
        if d in b' {
          assert d in a && d != a[0];
        }
      }
      AscendingUnique(a', b');
      assert a == [a[0]] + a' && b == [b[0]] + b';
    }
  }

  /** The least value. */
  function MinOf(s: seq<real>): (m: real)
    requires s != []
    ensures m in s
    ensures forall i :: 0 <= i < |s| ==> m <= s[i]
  {
    if |s| == 1 then s[0]
    else
      var m := MinOf(s[..|s| - 1]);
      assert forall i :: 0 <= i < |s| - 1 ==> s[..|s| - 1][i] == s[i];
      if s[|s| - 1] < m then s[|s| - 1] else m
  }

  /** The greatest value. */
  function MaxOf(s: seq<real>): (m: real)
    requires s != []
    ensures m in s
    ensures forall i :: 0 <= i < |s| ==> s[i] <= m
  {
    if |s| == 1 then s[0]
    else
      var m := MaxOf(s[..|s| - 1]);
      assert forall i :: 0 <= i < |s| - 1 ==> s[..|s| - 1][i] == s[i];
      if s[|s| - 1] > m then s[|s| - 1] else m
  }
}
