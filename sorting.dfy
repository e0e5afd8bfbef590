/**
 * JavaScript's `Array.prototype.sort` with a comparator. The sort is stable
 * (ECMAScript 2019 and later), so for a consistent comparator its result is
 * fully determined: the stable insertion sort below. `less(a, b)` holds when
 * the comparator puts `a` strictly before `b` (it returns a negative number).
 */
module Sorting {
  import opened Sequences

  /** `less` is irreflexive and transitive: a strict order. */
  ghost predicate StrictOrder<T(!new)>(less: (T, T) -> bool) {
    && (forall a :: !less(a, a))
    && (forall a, b, c :: less(a, b) && less(b, c) ==> less(a, c))
  }

  /** Neither of `a` and `b` is strictly before the other. */
  predicate Tied<T>(less: (T, T) -> bool, a: T, b: T) {
    !less(a, b) && !less(b, a)
  }

  /** The elements tied with `x`. */
  function TiedWith<T>(less: (T, T) -> bool, x: T): T -> bool {
    y => Tied(less, x, y)
  }

  /** A strict order whose ties are transitive, as every key-based comparator's are. */
  ghost predicate StrictWeakOrder<T(!new)>(less: (T, T) -> bool) {
    && StrictOrder(less)
    && (forall a, b, c :: Tied(less, a, b) && Tied(less, b, c) ==> Tied(less, a, c))
  }

  /** No element is strictly before an element placed ahead of it. */
  predicate SortedBy<T>(s: seq<T>, less: (T, T) -> bool) {
    forall i, j :: 0 <= i < j < |s| ==> !less(s[j], s[i])
  }

  /** Places `x` after every element it is not strictly before. */
  function Insert<T>(x: T, s: seq<T>, less: (T, T) -> bool): (r: seq<T>)
    ensures |r| == |s| + 1
    ensures multiset(r) == multiset(s) + multiset{x}
  {
    if s == [] then [x]
    else if less(x, s[0]) then [x] + s
    else
      assert s == [s[0]] + s[1..];
      [s[0]] + Insert(x, s[1..], less)
  }

  /** The stable sort of `s` under `less`. */
  function SortBy<T>(s: seq<T>, less: (T, T) -> bool): (r: seq<T>)
    ensures |r| == |s|
    ensures multiset(r) == multiset(s)
  {
    if s == [] then []
    else
      assert s == s[..|s| - 1] + [s[|s| - 1]];
      Insert(s[|s| - 1], SortBy(s[..|s| - 1], less), less)
  }

  lemma {:induction false} InsertSorted<T(!new)>(x: T, s: seq<T>, less: (T, T) -> bool)
    requires StrictOrder(less)
    requires SortedBy(s, less)
    ensures SortedBy(Insert(x, s, less), less)
  {
    if s != [] && !less(x, s[0]) {
      var t := s[1..];
      TailSorted(s, less);
      InsertSorted(x, t, less);
      var r := Insert(x, t, less);
      InsertedNotBeforeHead(x, s, less);
      assert Insert(x, s, less) == [s[0]] + r;
      ConsSorted(s[0], r, less);
    } else if s != [] {
      assert Insert(x, s, less) == [x] + s;
      InsertAtHead(x, s, less);
    }
  }

  lemma TailSorted<T>(s: seq<T>, less: (T, T) -> bool)
    requires SortedBy(s, less) && s != []
    ensures SortedBy(s[1..], less)
  {
    var t := s[1..];
    forall i, j | 0 <= i < j < |t| ensures !less(t[j], t[i]) {
      assert t[i] == s[i + 1] && t[j] == s[j + 1];
    }
  }

  /** Inserting behind the head of a sorted sequence puts nothing before it. */
  lemma InsertedNotBeforeHead<T(!new)>(x: T, s: seq<T>, less: (T, T) -> bool)
    requires SortedBy(s, less) && s != [] && !less(x, s[0])
    ensures forall y :: y in Insert(x, s[1..], less) ==> !less(y, s[0])
  {
    var t := s[1..];
    var r := Insert(x, t, less);
    forall y | y in r ensures !less(y, s[0]) {
      assert y in multiset(r);
      assert y == x || y in multiset(t);
      if y != x {
        var m :| 0 <= m < |t| && t[m] == y;
        assert t[m] == s[m + 1];
      }
    }
  }

  lemma ConsSorted<T>(h: T, r: seq<T>, less: (T, T) -> bool)
    requires SortedBy(r, less)
    requires forall y :: y in r ==> !less(y, h)
    ensures SortedBy([h] + r, less)
  {
    var q := [h] + r;
    forall i, j | 0 <= i < j < |q| ensures !less(q[j], q[i]) {
      if i == 0 {
        assert q[j] == r[j - 1];
      } else {
        assert q[i] == r[i - 1] && q[j] == r[j - 1];
      }
    }
  }

  /** An element strictly before the head of a sorted sequence may lead it. */
  lemma InsertAtHead<T(!new)>(x: T, s: seq<T>, less: (T, T) -> bool)
    requires StrictOrder(less)
    requires SortedBy(s, less) && s != [] && less(x, s[0])
    ensures SortedBy([x] + s, less)
  {
    forall y | y in s ensures !less(y, x) {
      var m :| 0 <= m < |s| && s[m] == y;
      if m > 0 {
        assert !less(s[m], s[0]);
      }
    }
    ConsSorted(x, s, less);
  }

  /** The stable sort is ordered by `less` whenever `less` is a strict order. */
  lemma {:induction false} SortBySorted<T(!new)>(s: seq<T>, less: (T, T) -> bool)
    requires StrictOrder(less)
    ensures SortedBy(SortBy(s, less), less)
  {
    if s != [] {
      SortBySorted(s[..|s| - 1], less);
      InsertSorted(s[|s| - 1], SortBy(s[..|s| - 1], less), less);
    }
  }

  /** Sorting keeps exactly the elements it was given. */
  lemma SortByMembers<T>(s: seq<T>, less: (T, T) -> bool, x: T)
    ensures x in SortBy(s, less) <==> x in s
  {
    assert x in SortBy(s, less) <==> x in multiset(SortBy(s, less));
  }

  /** An element tied with one that is strictly before `c` is strictly before `c` too. */
  lemma TiedBefore<T(!new)>(less: (T, T) -> bool, a: T, b: T, c: T)
    requires StrictWeakOrder(less)
    requires less(a, c) && Tied(less, a, b)
    ensures less(b, c)
  {
    assert Tied(less, b, c) ==> Tied(less, a, c);
    assert less(c, b) ==> less(a, b);
  }

  lemma NothingKept<T>(s: seq<T>, keep: T -> bool)
    requires forall y :: y in s ==> !keep(y)
    ensures Filter(s, keep) == []
  {
    var r := Filter(s, keep);
    if r != [] {
      FilterMember(s, keep, r[0]);
    }
  }

  /**
   * Inserting into a sorted sequence puts the new element behind every
   * element it is tied with.
   */
  lemma {:induction false} InsertStable<T(!new)>(z: T, s: seq<T>, less: (T, T) -> bool, x: T)
    requires StrictWeakOrder(less)
    requires SortedBy(s, less)
    ensures Filter(Insert(z, s, less), TiedWith(less, x))
         == Filter(s, TiedWith(less, x)) + if Tied(less, x, z) then [z] else []
  {
    if s == [] {
      FilterSnoc([], z, TiedWith(less, x));
    } else if less(z, s[0]) {
      InsertAheadStable(z, s, less, x);
    } else {
      TailSorted(s, less);
      InsertStable(z, s[1..], less, x);
      InsertBehindStable(z, s, less, x);
    }
  }

  lemma InsertBehindStable<T>(z: T, s: seq<T>, less: (T, T) -> bool, x: T)
    requires s != [] && !less(z, s[0])
    requires Filter(Insert(z, s[1..], less), TiedWith(less, x))
          == Filter(s[1..], TiedWith(less, x)) + if Tied(less, x, z) then [z] else []
    ensures Filter(Insert(z, s, less), TiedWith(less, x))
         == Filter(s, TiedWith(less, x)) + if Tied(less, x, z) then [z] else []
  {
    var h, t := s[0], s[1..];
    assert Insert(z, s, less) == [h] + Insert(z, t, less);
    ConsFilter(h, Insert(z, t, less), t, TiedWith(less, x), if Tied(less, x, z) then [z] else []);
    assert s == [h] + t;
  }

  lemma ConsFilter<T>(h: T, a: seq<T>, b: seq<T>, keep: T -> bool, tail: seq<T>)
    requires Filter(a, keep) == Filter(b, keep) + tail
    ensures Filter([h] + a, keep) == Filter([h] + b, keep) + tail
  {
    var head, rest := Filter([h], keep), Filter(b, keep);
    calc {
      Filter([h] + a, keep);
      == { FilterAppend([h], a, keep); }
      head + (rest + tail);
      (head + rest) + tail;
      == { FilterAppend([h], b, keep); }
      Filter([h] + b, keep) + tail;
    }
  }

  lemma InsertAheadStable<T(!new)>(z: T, s: seq<T>, less: (T, T) -> bool, x: T)
    requires StrictWeakOrder(less)
    requires SortedBy(s, less) && s != [] && less(z, s[0])
    ensures Filter(Insert(z, s, less), TiedWith(less, x))
         == Filter(s, TiedWith(less, x)) + if Tied(less, x, z) then [z] else []
  {
    var keep := TiedWith(less, x);
    var tail := if keep(z) then [z] else [];
    if keep(z) {
      NoneTiedBehind(z, s, less, x);
    }
    calc {
      Filter(Insert(z, s, less), keep);
      Filter([z] + s, keep);
      == { FilterAppend([z], s, keep); FilterSnoc([], z, keep); }
      tail + Filter(s, keep);
      Filter(s, keep) + tail;
    }
  }

  /**
   * Nothing in a sorted sequence is tied with an element strictly before its
   * head.
   */
  lemma NoneTiedBehind<T(!new)>(z: T, s: seq<T>, less: (T, T) -> bool, x: T)
    requires StrictWeakOrder(less)
    requires SortedBy(s, less) && s != [] && less(z, s[0]) && Tied(less, x, z)
    ensures Filter(s, TiedWith(less, x)) == []
  {
    var keep := TiedWith(less, x);
    forall y | y in s ensures !keep(y) {
      var m :| 0 <= m < |s| && s[m] == y;
      if m > 0 {
        assert !less(s[m], s[0]);
      }
      if keep(y) {
        TiedBefore(less, z, y, s[0]);
      }
    }
    NothingKept(s, keep);
  }

  lemma SortByLast<T>(s: seq<T>, less: (T, T) -> bool)
    requires s != []
    ensures SortBy(s, less) == Insert(s[|s| - 1], SortBy(s[..|s| - 1], less), less)
  {
  }

  /**
   * The sort is stable: the elements tied with any `x` come out in the order
   * they went in.
   */
  lemma {:induction false} SortByStable<T(!new)>(s: seq<T>, less: (T, T) -> bool, x: T)
    requires StrictWeakOrder(less)
    ensures Filter(SortBy(s, less), TiedWith(less, x)) == Filter(s, TiedWith(less, x))
  {
    if s != [] {
      var init, last := s[..|s| - 1], s[|s| - 1];
      var keep := TiedWith(less, x);
      calc {
        Filter(SortBy(s, less), keep);
        == { SortByLast(s, less); }
        Filter(Insert(last, SortBy(init, less), less), keep);
        == { SortByStable(init, less, x); InsertLastStable(init, last, less, x); }
        Filter(init + [last], keep);
        == { assert s == init + [last]; }
        Filter(s, keep);
      }
    }
  }

  /** One step of the sort keeps the ties of the sorted prefix in order. */
  lemma InsertLastStable<T(!new)>(init: seq<T>, last: T, less: (T, T) -> bool, x: T)
    requires StrictWeakOrder(less)
    requires Filter(SortBy(init, less), TiedWith(less, x)) == Filter(init, TiedWith(less, x))
    ensures Filter(Insert(last, SortBy(init, less), less), TiedWith(less, x))
         == Filter(init + [last], TiedWith(less, x))
  {
    var keep := TiedWith(less, x);
    SortBySorted(init, less);
    InsertStable(last, SortBy(init, less), less, x);
    FilterSnoc(init, last, keep);
  }
}
