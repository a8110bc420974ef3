/** Stable sorting by a strict weak order: the order sort.SliceStable promises. */
module StableSort {

  ghost predicate StrictWeakOrder<T(!new)>(less: (T, T) -> bool) {
    && (forall x :: !less(x, x))
    && (forall x, y, z :: less(x, z) ==> less(x, y) || less(y, z))
    && (forall x, y, z :: less(x, y) && less(y, z) ==> less(x, z))
  }

  ghost predicate Sorted<T>(less: (T, T) -> bool, s: seq<T>) {
    forall j, k :: 0 <= j < k < |s| ==> !less(s[k], s[j])
  }

  /** `v` placed behind everything it does not come before. */
  function Insert<T>(less: (T, T) -> bool, s: seq<T>, v: T): (r: seq<T>)
    ensures |r| == |s| + 1
  {
    if s == [] then [v]
    else if less(v, s[|s| - 1]) then Insert(less, s[..|s| - 1], v) + [s[|s| - 1]]
    else s + [v]
  }

  function Sort<T>(less: (T, T) -> bool, s: seq<T>): (r: seq<T>)
    ensures |r| == |s|
  {
    if s == [] then [] else Insert(less, Sort(less, s[..|s| - 1]), s[|s| - 1])
  }

  function Take<T>(s: seq<T>, n: nat): seq<T> {
    if |s| <= n then s else s[..n]
  }

  lemma {:induction false} InsertSorted<T(!new)>(less: (T, T) -> bool, s: seq<T>, v: T)
    requires StrictWeakOrder(less) && Sorted(less, s)
    ensures Sorted(less, Insert(less, s, v))
    ensures forall x :: x in Insert(less, s, v) <==> x in s || x == v
  {
    if s == [] {
    } else {
      var front, last := s[..|s| - 1], s[|s| - 1];
      assert s == front + [last];
      if less(v, last) {
        InsertSorted(less, front, v);
        var r := Insert(less, front, v);
        forall j | 0 <= j < |r|
          ensures !less(last, r[j])
        {
          assert r[j] in r;
          assert r[j] == v || r[j] in front;
        }
      } else {
        forall j | 0 <= j < |s|
          ensures !less(v, s[j])
        {
          assert s[j] == last || !less(last, s[j]);
        }
      }
    }
  }

  lemma {:induction false} SortSorts<T(!new)>(less: (T, T) -> bool, s: seq<T>)
    requires StrictWeakOrder(less)
    ensures Sorted(less, Sort(less, s))
  {
    if s == [] {
    } else {
      SortSorts(less, s[..|s| - 1]);
      InsertSorted(less, Sort(less, s[..|s| - 1]), s[|s| - 1]);
    }
  }

  lemma {:induction false} SortOfSorted<T(!new)>(less: (T, T) -> bool, s: seq<T>)
    requires Sorted(less, s)
    ensures Sort(less, s) == s
  {
    if s == [] {
    } else {
      SortOfSorted(less, s[..|s| - 1]);
    }
  }

  /** Cutting to the first n before an insertion cuts nothing that matters after it. */
  lemma {:induction false} TakeInsert<T(!new)>(less: (T, T) -> bool, s: seq<T>, v: T, n: nat)
    requires StrictWeakOrder(less) && Sorted(less, s) && n >= 1
    ensures Take(Insert(less, Take(s, n), v), n) == Take(Insert(less, s, v), n)
  {
    if |s| > n {
      var front, last := s[..|s| - 1], s[|s| - 1];
      assert Take(front, n) == Take(s, n);
      TakeInsert(less, front, v, n);
      if !less(v, last) {
        var y := s[n - 1];
        assert !less(v, y) by {
          assert y == last || !less(last, y);
        }
        assert Take(s, n)[|Take(s, n)| - 1] == y;
      }
    }
  }

  // ---------------------------------------------------------------------------
  // The reference: the positions of the input in stable order.

  /** Position `a` of `s` is placed before position `b`. */
  predicate Before<T>(less: (T, T) -> bool, s: seq<T>, a: nat, b: nat)
    requires a < |s| && b < |s|
  {
    less(s[a], s[b]) || (!less(s[b], s[a]) && a < b)
  }

  /** The listed positions, each before the ones listed after it. */
  ghost predicate InOrder<T>(less: (T, T) -> bool, s: seq<T>, order: seq<nat>) {
    && (forall k :: 0 <= k < |order| ==> order[k] < |s|)
    && (forall j, k :: 0 <= j < k < |order| ==> Before(less, s, order[j], order[k]))
  }

  /** `order` lists every position of `s` once, in stable order. */
  ghost predicate StableOrder<T>(less: (T, T) -> bool, s: seq<T>, order: seq<nat>) {
    && |order| == |s| && InOrder(less, s, order)
    && (forall a :: 0 <= a < |s| ==> a in order)
  }

  function Positions<T>(less: (T, T) -> bool, s: seq<T>): (r: seq<nat>)
    ensures |r| == |s|
    ensures forall k :: 0 <= k < |r| ==> r[k] < |s|
  {
    if s == [] then []
    else PlacePosition(less, s, Positions(less, s[..|s| - 1]), |s| - 1)
  }

  function PlacePosition<T>(less: (T, T) -> bool, s: seq<T>, order: seq<nat>, p: nat): (r: seq<nat>)
    requires p < |s| && forall k :: 0 <= k < |order| ==> order[k] < |s|
    ensures |r| == |order| + 1
    ensures forall k :: 0 <= k < |r| ==> r[k] < |s|
    ensures forall a :: a in r <==> a in order || a == p
  {
    if order == [] then [p]
    else
      var last := order[|order| - 1];
      if less(s[p], s[last]) then
        assert order == order[..|order| - 1] + [last];
        PlacePosition(less, s, order[..|order| - 1], p) + [last]
      else order + [p]
  }

  /** The elements of `s` at the listed positions. */
  ghost function At<T>(s: seq<T>, order: seq<nat>): seq<T>
    requires forall k :: 0 <= k < |order| ==> order[k] < |s|
  {
    seq(|order|, k requires 0 <= k < |order| => s[order[k]])
  }

  lemma {:induction false} PlaceIsInsert<T>(less: (T, T) -> bool, s: seq<T>, order: seq<nat>, p: nat)
    requires p < |s| && forall k :: 0 <= k < |order| ==> order[k] < |s|
    ensures At(s, PlacePosition(less, s, order, p)) == Insert(less, At(s, order), s[p])
  {
    if order == [] {
    } else {
      var front, last := order[..|order| - 1], order[|order| - 1];
      assert At(s, order)[..|order| - 1] == At(s, front);
      assert At(s, order)[|order| - 1] == s[last];
      PlaceIsInsert(less, s, front, p);
      if less(s[p], s[last]) {
        var r := PlacePosition(less, s, front, p);
        assert At(s, r + [last]) == At(s, r) + [s[last]];
      } else {
        assert At(s, order + [p]) == At(s, order) + [s[p]];
      }
    }
  }

  lemma {:induction false} PlaceKeepsOrder<T(!new)>(less: (T, T) -> bool, s: seq<T>, order: seq<nat>, p: nat)
    requires StrictWeakOrder(less) && p < |s| && InOrder(less, s, order)
    requires forall k :: 0 <= k < |order| ==> order[k] < p
    ensures InOrder(less, s, PlacePosition(less, s, order, p))
  {
    if order == [] {
    } else {
      var front, last := order[..|order| - 1], order[|order| - 1];
      assert order == front + [last];
      if less(s[p], s[last]) {
        PlaceKeepsOrder(less, s, front, p);
        var r := PlacePosition(less, s, front, p);
        forall j | 0 <= j < |r|
          ensures Before(less, s, r[j], last)
        {
          assert r[j] in r;
          assert r[j] == p || r[j] in front;
        }
      } else {
        forall j | 0 <= j < |order|
          ensures Before(less, s, order[j], p)
        {
          assert order[j] == last || Before(less, s, order[j], last);
        }
      }
    }
  }

  /** Sorting by insertion puts every element where the stable order puts it. */
  lemma {:induction false} SortIsStable<T(!new)>(less: (T, T) -> bool, s: seq<T>)
    requires StrictWeakOrder(less)
    ensures StableOrder(less, s, Positions(less, s))
    ensures Sort(less, s) == At(s, Positions(less, s))
  {
    hide InOrder, Before, Insert, PlacePosition, At, StrictWeakOrder;
    if s == [] {
      NoneStable(less, s);
    } else {
      var n := |s| - 1;
      SortIsStable(less, s[..n]);
      var order := Positions(less, s[..n]);
      OrderOfFront(less, s, order);
      PlaceIsInsert(less, s, order, n);
      PlaceKeepsOrder(less, s, order, n);
    }
  }

  lemma NoneStable<T(!new)>(less: (T, T) -> bool, s: seq<T>)
    requires s == []
    ensures InOrder(less, s, []) && At(s, []) == []
  {
  }

  /** An order of all but the last element keeps its meaning in the whole. */
  lemma OrderOfFront<T(!new)>(less: (T, T) -> bool, s: seq<T>, order: seq<nat>)
    requires s != [] && StableOrder(less, s[..|s| - 1], order)
    ensures InOrder(less, s, order) && (forall k :: 0 <= k < |order| ==> order[k] < |s| - 1)
    ensures At(s, order) == At(s[..|s| - 1], order)
  {
    var front := s[..|s| - 1];
    forall j, k | 0 <= j < k < |order|
      ensures Before(less, s, order[j], order[k])
    {
      assert Before(less, front, order[j], order[k]);
    }
  }

  /** There is only one stable order. */
  lemma {:induction false} StableOrderUnique<T(!new)>(less: (T, T) -> bool, s: seq<T>, o1: seq<nat>, o2: seq<nat>)
    requires StrictWeakOrder(less) && InOrder(less, s, o1) && InOrder(less, s, o2)
    requires forall a :: a in o1 <==> a in o2
    ensures o1 == o2
  {
    if o1 == [] {
      Members(o2);
    } else {
      Members(o1);
      Members(o2);
      HeadIsFirst(less, s, o1, o2[0]);
      HeadIsFirst(less, s, o2, o1[0]);
      forall a
        ensures a in o1[1..] <==> a in o2[1..]
      {
        TailMember(less, s, o1, a);
        TailMember(less, s, o2, a);
      }
      StableOrderUnique(less, s, o1[1..], o2[1..]);
    }
  }

  lemma Members(o: seq<nat>)
    ensures o != [] ==> o[0] in o
  {
  }

  lemma HeadIsFirst<T(!new)>(less: (T, T) -> bool, s: seq<T>, o: seq<nat>, a: nat)
    requires InOrder(less, s, o) && a in o
    ensures a < |s| && (a == o[0] || Before(less, s, o[0], a))
  {
    var k :| 0 <= k < |o| && o[k] == a;
  }

  lemma TailMember<T(!new)>(less: (T, T) -> bool, s: seq<T>, o: seq<nat>, a: nat)
    requires StrictWeakOrder(less) && InOrder(less, s, o) && o != []
    ensures a in o[1..] <==> a in o && a != o[0]
  {
    if a in o[1..] {
      var k :| 0 <= k < |o[1..]| && o[1..][k] == a;
      assert Before(less, s, o[0], o[k + 1]);
    }
    assert o == [o[0]] + o[1..];
  }
}
