/**
 Python's `sorted` as the code under study uses it: a stable insertion sort by a
 "not after" comparison, and the two facts every canonical form here rests on.
 The result is a sorted rearrangement, and a sorted rearrangement is unique as
 soon as tied elements are equal.
 */
module Sorting {

  /** Lexicographic order of strings by code point, as Python compares `str`. */
  predicate TextLeq(a: string, b: string) {
    if a == "" then true
    else if b == "" then false
    else a[0] < b[0] || (a[0] == b[0] && TextLeq(a[1..], b[1..]))
  }

  lemma {:induction false} TextLeqTotal(a: string, b: string)
    ensures TextLeq(a, b) || TextLeq(b, a)
  {
    if a != "" && b != "" && a[0] == b[0] {
      TextLeqTotal(a[1..], b[1..]);
    }
  }

  lemma {:induction false} TextLeqAntisymmetric(a: string, b: string)
    requires TextLeq(a, b) && TextLeq(b, a)
    ensures a == b
  {
    if a != "" && b != "" {
      TextLeqAntisymmetric(a[1..], b[1..]);
      assert a == [a[0]] + a[1..] && b == [b[0]] + b[1..];
    }
  }

  lemma {:induction false} TextLeqTransitive(a: string, b: string, c: string)
    requires TextLeq(a, b) && TextLeq(b, c)
    ensures TextLeq(a, c)
  {
    if a != "" && a[0] == b[0] && b[0] == c[0] {
      TextLeqTransitive(a[1..], b[1..], c[1..]);
    }
  }

  ghost predicate Order<T(!new)>(leq: (T, T) -> bool) {
    && (forall x, y :: leq(x, y) || leq(y, x))
    && (forall x, y, z :: leq(x, y) && leq(y, z) ==> leq(x, z))
  }

  ghost predicate Sorted<T>(xs: seq<T>, leq: (T, T) -> bool) {
    forall i, j | 0 <= i < j < |xs| :: leq(xs[i], xs[j])
  }

  /** Ties under `leq` only between equal elements of `xs`. */
  ghost predicate TiesAreEqual<T>(xs: seq<T>, leq: (T, T) -> bool) {
    forall x, y | x in xs && y in xs && leq(x, y) && leq(y, x) :: x == y
  }

  function Insert<T>(x: T, xs: seq<T>, leq: (T, T) -> bool): seq<T> {
    if xs == [] then [x]
    else if leq(x, xs[0]) then [x] + xs
    else [xs[0]] + Insert(x, xs[1..], leq)
  }

  function Sort<T>(xs: seq<T>, leq: (T, T) -> bool): seq<T> {
    if xs == [] then [] else Insert(xs[0], Sort(xs[1..], leq), leq)
  }

  lemma {:induction false} InsertPermutes<T>(x: T, xs: seq<T>, leq: (T, T) -> bool)
    ensures multiset(Insert(x, xs, leq)) == multiset([x]) + multiset(xs)
  {
    if xs != [] && !leq(x, xs[0]) {
      InsertPermutes(x, xs[1..], leq);
      assert xs == [xs[0]] + xs[1..];
    }
  }

  lemma {:induction false} SortPermutes<T>(xs: seq<T>, leq: (T, T) -> bool)
    ensures multiset(Sort(xs, leq)) == multiset(xs)
    ensures |Sort(xs, leq)| == |xs|
  {
    if xs != [] {
      SortPermutes(xs[1..], leq);
      InsertPermutes(xs[0], Sort(xs[1..], leq), leq);
      assert xs == [xs[0]] + xs[1..];
    }
    assert |multiset(Sort(xs, leq))| == |multiset(xs)|;
  }

  lemma {:induction false} InsertSorted<T(!new)>(x: T, xs: seq<T>, leq: (T, T) -> bool)
    requires Order(leq) && Sorted(xs, leq)
    ensures Sorted(Insert(x, xs, leq), leq)
  {
    if xs != [] && !leq(x, xs[0]) {
      InsertSorted(x, xs[1..], leq);
      InsertPermutes(x, xs[1..], leq);
      var tail := Insert(x, xs[1..], leq);
      forall j | 0 <= j < |tail| ensures leq(xs[0], tail[j]) {
        assert tail[j] in multiset(tail);
        assert tail[j] == x || tail[j] in xs[1..];
      }
    }
  }

  lemma {:induction false} SortSorted<T(!new)>(xs: seq<T>, leq: (T, T) -> bool)
    requires Order(leq)
    ensures Sorted(Sort(xs, leq), leq)
  {
    if xs != [] {
      SortSorted(xs[1..], leq);
      InsertSorted(xs[0], Sort(xs[1..], leq), leq);
    }
  }

  lemma TailMultiset<T>(xs: seq<T>)
    requires xs != []
    ensures xs == [xs[0]] + xs[1..]
    ensures multiset(xs[1..]) == multiset(xs) - multiset([xs[0]])
  {
    assert xs == [xs[0]] + xs[1..];
  }

  lemma LeastIsFirst<T(!new)>(xs: seq<T>, ys: seq<T>, leq: (T, T) -> bool)
    requires Order(leq) && Sorted(xs, leq) && Sorted(ys, leq) && xs != [] && ys != []
    requires multiset(xs) == multiset(ys) && TiesAreEqual(xs, leq)
    ensures xs[0] == ys[0]
  {
    assert xs[0] in multiset(ys) && ys[0] in multiset(xs);
    assert leq(xs[0], ys[0]) && leq(ys[0], xs[0]);
  }

  lemma {:induction false} SortedUnique<T(!new)>(xs: seq<T>, ys: seq<T>, leq: (T, T) -> bool)
    requires Order(leq) && Sorted(xs, leq) && Sorted(ys, leq)
    requires multiset(xs) == multiset(ys) && TiesAreEqual(xs, leq)
    ensures xs == ys
  {
    assert |multiset(xs)| == |multiset(ys)|;
    if xs != [] {
      LeastIsFirst(xs, ys, leq);
      TailMultiset(xs);
      TailMultiset(ys);
      SortedUnique(xs[1..], ys[1..], leq);
    }
  }

  /** Sorting forgets exactly the order of its argument. */
  lemma SortCanonical<T(!new)>(xs: seq<T>, ys: seq<T>, leq: (T, T) -> bool)
    requires Order(leq) && TiesAreEqual(xs, leq)
    ensures Sort(xs, leq) == Sort(ys, leq) <==> multiset(xs) == multiset(ys)
  {
    SortPermutes(xs, leq);
    SortPermutes(ys, leq);
    if multiset(xs) == multiset(ys) {
      SortSorted(xs, leq);
      SortSorted(ys, leq);
      assert forall x :: x in Sort(xs, leq) ==> x in multiset(xs) && x in xs;
      SortedUnique(Sort(xs, leq), Sort(ys, leq), leq);
    }
  }

  lemma {:induction false} TextOrder()
    ensures Order(TextLeq)
    ensures forall a, b {:trigger TextLeq(a, b), TextLeq(b, a)} :: TextLeq(a, b) && TextLeq(b, a) ==> a == b
  {
    forall a, b ensures TextLeq(a, b) || TextLeq(b, a) { TextLeqTotal(a, b); }
    forall a, b, c | TextLeq(a, b) && TextLeq(b, c) ensures TextLeq(a, c) { TextLeqTransitive(a, b, c); }
    forall a, b | TextLeq(a, b) && TextLeq(b, a) ensures a == b { TextLeqAntisymmetric(a, b); }
  }
}
