/** Array.prototype.sort with a comparator: a stable sort, and when its result does not depend on
    the order the elements arrived in. */
module Ordering {

  /** What a comparator has to be for a sort by it to mean anything: less is a strict weak order. */
  ghost predicate WeakOrder<T(!new)>(less: (T, T) -> bool)
  {
    && (forall x :: !less(x, x))
    && (forall x, y, z :: less(x, y) && less(y, z) ==> less(x, z))
    && (forall x, y, z :: less(x, z) ==> less(x, y) || less(y, z))
  }

  /** Distinct members of xs never tie. */
  ghost predicate NoTies<T(!new)>(less: (T, T) -> bool, xs: multiset<T>)
  {
    forall x, y :: x in xs && y in xs && x != y ==> less(x, y) || less(y, x)
  }

  ghost predicate Sorted<T(!new)>(less: (T, T) -> bool, s: seq<T>)
  {
    forall i, j :: 0 <= i < j < |s| ==> !less(s[j], s[i])
  }

  /** Places x before the first element that is not less than x. */
  function Insert<T>(less: (T, T) -> bool, x: T, s: seq<T>): (r: seq<T>)
    ensures multiset(r) == multiset{x} + multiset(s)
    ensures |r| == |s| + 1
  {
    if s == [] || !less(s[0], x) then
      [x] + s
    else
      assert s == [s[0]] + s[1..];
      [s[0]] + Insert(less, x, s[1..])
  }

  /** The stable sort of s: an insertion sort, which every stable sort by the same weak order equals. */
  function Sort<T>(less: (T, T) -> bool, s: seq<T>): (r: seq<T>)
    ensures multiset(r) == multiset(s)
    ensures |r| == |s|
  {
    if s == [] then []
    else
      assert s == [s[0]] + s[1..];
      Insert(less, s[0], Sort(less, s[1..]))
  }

  lemma InsertInFront<T(!new)>(less: (T, T) -> bool, x: T, s: seq<T>)
    requires WeakOrder(less) && Sorted(less, s) && (s != [] ==> !less(s[0], x))
    ensures Sorted(less, [x] + s)
  {
    forall j | 0 <= j < |s| ensures !less(s[j], x) {
      // less(s[j], x) would put s[j] below s[0] or s[0] below x
      assert j > 0 ==> !less(s[j], s[0]);
    }
  }

  lemma InsertBehind<T(!new)>(less: (T, T) -> bool, first: T, tail: seq<T>)
    requires Sorted(less, tail) && forall y | y in tail :: !less(y, first)
    ensures Sorted(less, [first] + tail)
  {
    var r := [first] + tail;
    forall i, j | 0 <= i < j < |r| ensures !less(r[j], r[i]) {
      assert r[j] == tail[j - 1];
    }
  }

  lemma {:induction false} InsertSorted<T(!new)>(less: (T, T) -> bool, x: T, s: seq<T>)
    requires WeakOrder(less) && Sorted(less, s)
    ensures Sorted(less, Insert(less, x, s))
  {
    if s == [] || !less(s[0], x) {
      InsertInFront(less, x, s);
    } else {
      var tail := Insert(less, x, s[1..]);
      InsertSorted(less, x, s[1..]);
      forall y | y in tail ensures !less(y, s[0]) {
        assert y in multiset(tail);
        assert y == x || y in s[1..];
        assert less(x, s[0]) ==> less(s[0], s[0]);
      }
      InsertBehind(less, s[0], tail);
    }
  }

  lemma {:induction false} SortSorted<T(!new)>(less: (T, T) -> bool, s: seq<T>)
    requires WeakOrder(less)
    ensures Sorted(less, Sort(less, s))
  {
    if s != [] {
      SortSorted(less, s[1..]);
      InsertSorted(less, s[0], Sort(less, s[1..]));
    }
  }

  lemma SortedHeadsAgree<T(!new)>(less: (T, T) -> bool, a: seq<T>, b: seq<T>)
    requires multiset(a) == multiset(b) && a != [] && b != []
    requires NoTies(less, multiset(a))
    requires Sorted(less, a) && Sorted(less, b)
    ensures a[0] == b[0]
  {
    assert a[0] in multiset(b) && b[0] in multiset(a);
    var i :| 0 <= i < |b| && b[i] == a[0];
    var j :| 0 <= j < |a| && a[j] == b[0];
    assert i > 0 ==> !less(b[i], b[0]);
    assert j > 0 ==> !less(a[j], a[0]);
  }

  lemma TailMultiset<T>(s: seq<T>)
    requires s != []
    ensures multiset(s[1..]) == multiset(s) - multiset{s[0]}
  {
    assert s == [s[0]] + s[1..];
  }

  function RemoveAt<T>(s: seq<T>, i: nat): (r: seq<T>)
    requires i < |s|
    ensures |r| == |s| - 1
    ensures multiset(r) == multiset(s) - multiset{s[i]}
  {
    assert s == s[..i] + ([s[i]] + s[i + 1..]);
    s[..i] + s[i + 1..]
  }

  lemma SameLength<T>(a: seq<T>, b: seq<T>)
    requires multiset(a) == multiset(b)
    ensures |a| == |b|
  {
    assert |a| == |multiset(a)| == |multiset(b)| == |b|;
  }

  lemma HeadAndTail<T>(a: seq<T>, b: seq<T>)
    requires a != [] && b != [] && a[0] == b[0] && a[1..] == b[1..]
    ensures a == b
  {
    assert a == [a[0]] + a[1..] && b == [b[0]] + b[1..];
  }

  lemma TailSorted<T(!new)>(less: (T, T) -> bool, a: seq<T>)
    requires a != [] && Sorted(less, a) && NoTies(less, multiset(a))
    ensures Sorted(less, a[1..]) && NoTies(less, multiset(a[1..]))
  {
    TailMultiset(a);
    forall x | x in multiset(a[1..]) ensures x in multiset(a) {
    }
  }

  /** Two sorted arrangements of the same elements are equal when no two of them tie. */
  lemma {:induction false} SortedUnique<T(!new)>(less: (T, T) -> bool, a: seq<T>, b: seq<T>)
    requires multiset(a) == multiset(b)
    requires NoTies(less, multiset(a))
    requires Sorted(less, a) && Sorted(less, b)
    ensures a == b
  {
    SameLength(a, b);
    if a != [] {
      SortedHeadsAgree(less, a, b);
      TailMultiset(a);
      TailMultiset(b);
      TailSorted(less, a);
      TailSorted(less, b);
      SortedUnique(less, a[1..], b[1..]);
      HeadAndTail(a, b);
    }
  }

  /** The sort forgets the order of arrival when no two elements tie. */
  lemma SortPermutation<T(!new)>(less: (T, T) -> bool, a: seq<T>, b: seq<T>)
    requires WeakOrder(less)
    requires multiset(a) == multiset(b)
    requires NoTies(less, multiset(a))
    ensures Sort(less, a) == Sort(less, b)
  {
    SortSorted(less, a);
    SortSorted(less, b);
    SortedUnique(less, Sort(less, a), Sort(less, b));
  }

  /** A sequence that is already sorted without ties is left alone. */
  lemma SortIdentity<T(!new)>(less: (T, T) -> bool, a: seq<T>)
    requires WeakOrder(less)
    requires NoTies(less, multiset(a))
    requires Sorted(less, a)
    ensures Sort(less, a) == a
  {
    SortSorted(less, a);
    SortedUnique(less, Sort(less, a), a);
  }

  lemma {:induction false} InsertLands<T(!new)>(less: (T, T) -> bool, x: T, s: seq<T>) returns (p: nat)
    ensures var r := Insert(less, x, s); p < |r| && r[p] == x && forall i | 0 <= i < p :: less(r[i], x)
  {
    if s == [] || !less(s[0], x) {
      p := 0;
    } else {
      var q := InsertLands(less, x, s[1..]);
      p := q + 1;
    }
  }

  /** Two tying elements keep their order of arrival. */
  lemma TiesKeepArrival<T(!new)>(less: (T, T) -> bool, x: T, y: T, rest: seq<T>)
    requires x != y && !less(x, y) && !less(y, x)
    ensures Sort(less, [x, y] + rest) != Sort(less, [y, x] + rest)
  {
    var s := Sort(less, rest);
    assert ([x, y] + rest)[1..] == [y] + rest && ([y] + rest)[1..] == rest;
    assert ([y, x] + rest)[1..] == [x] + rest && ([x] + rest)[1..] == rest;
    var p := InsertLands(less, x, Insert(less, y, s));
    var q := InsertLands(less, y, Insert(less, x, s));
  }

  /** Moves an element to the front. */
  lemma ToFront<T>(s: seq<T>, x: T) returns (rest: seq<T>)
    requires x in multiset(s)
    ensures multiset(rest) == multiset(s) - multiset{x} && multiset([x] + rest) == multiset(s)
  {
    var i :| 0 <= i < |s| && s[i] == x;
    rest := RemoveAt(s, i);
  }

  /** A tie anywhere in the list shows in two arrangements of it. */
  lemma TieShows<T(!new)>(less: (T, T) -> bool, a: seq<T>, x: T, y: T) returns (b: seq<T>, c: seq<T>)
    requires x in multiset(a) && y in multiset(a) && x != y && !less(x, y) && !less(y, x)
    ensures multiset(b) == multiset(a) == multiset(c) && Sort(less, b) != Sort(less, c)
  {
    var front := ToFront(a, x);
    var rest := ToFront(front, y);
    b, c := [x, y] + rest, [y, x] + rest;
    TiesKeepArrival(less, x, y, rest);
    PairInFront(x, y, rest);
    PairInFront(y, x, rest);
  }

  lemma PairInFront<T>(x: T, y: T, rest: seq<T>)
    ensures multiset([x, y] + rest) == multiset{x} + (multiset{y} + multiset(rest))
  {
    assert [x, y] + rest == [x] + ([y] + rest);
  }

  /** The sort forgets the order of arrival exactly when no two distinct elements tie. */
  lemma SortForgetsArrival<T(!new)>(less: (T, T) -> bool, a: seq<T>)
    requires WeakOrder(less)
    ensures (forall b | multiset(b) == multiset(a) :: Sort(less, b) == Sort(less, a)) <==> NoTies(less, multiset(a))
  {
    if NoTies(less, multiset(a)) {
      forall b | multiset(b) == multiset(a) ensures Sort(less, b) == Sort(less, a) {
        SortPermutation(less, b, a);
      }
    } else {
      var x, y :| x in multiset(a) && y in multiset(a) && x != y && !less(x, y) && !less(y, x);
      var b, c := TieShows(less, a, x, y);
    }
  }
}
