/** Stable sorting by a comparison, and the fact that makes its result independent of input order. */
module Sorting {

  ghost predicate Total<T(!new)>(leq: (T, T) -> bool) {
    forall x, y :: leq(x, y) || leq(y, x)
  }

  ghost predicate Transitive<T(!new)>(leq: (T, T) -> bool) {
    forall x, y, z :: leq(x, y) && leq(y, z) ==> leq(x, z)
  }

  /** On these elements the order tells any two apart. */
  ghost predicate Separates<T>(leq: (T, T) -> bool, xs: seq<T>) {
    forall x, y :: x in xs && y in xs && leq(x, y) && leq(y, x) ==> x == y
  }

  ghost predicate Sorted<T>(leq: (T, T) -> bool, xs: seq<T>) {
    forall i, j :: 0 <= i < j < |xs| ==> leq(xs[i], xs[j])
  }

  function Insert<T>(leq: (T, T) -> bool, x: T, xs: seq<T>): (r: seq<T>)
    ensures |r| == |xs| + 1
  {
    if xs == [] then [x]
    else if leq(x, xs[0]) then [x] + xs
    else [xs[0]] + Insert(leq, x, xs[1..])
  }

  function Sort<T>(leq: (T, T) -> bool, xs: seq<T>): (r: seq<T>)
    ensures |r| == |xs|
  {
    if xs == [] then [] else Insert(leq, xs[0], Sort(leq, xs[1..]))
  }

  lemma {:induction false} InsertPermutes<T>(leq: (T, T) -> bool, x: T, xs: seq<T>)
    ensures multiset(Insert(leq, x, xs)) == multiset(xs) + multiset{x}
  {
    if xs != [] {
      assert xs == [xs[0]] + xs[1..];
      InsertPermutes(leq, x, xs[1..]);
    }
  }

  lemma {:induction false} SortPermutes<T>(leq: (T, T) -> bool, xs: seq<T>)
    ensures multiset(Sort(leq, xs)) == multiset(xs)
  {
    if xs != [] {
      assert xs == [xs[0]] + xs[1..];
      SortPermutes(leq, xs[1..]);
      InsertPermutes(leq, xs[0], Sort(leq, xs[1..]));
    }
  }

  lemma {:induction false} InsertSorted<T(!new)>(leq: (T, T) -> bool, x: T, xs: seq<T>)
    requires Total(leq) && Transitive(leq) && Sorted(leq, xs)
    ensures Sorted(leq, Insert(leq, x, xs))
  {
    if xs != [] && !leq(x, xs[0]) {
      var rest := Insert(leq, x, xs[1..]);
      InsertSorted(leq, x, xs[1..]);
      InsertPermutes(leq, x, xs[1..]);
      forall j | 0 <= j < |rest| ensures leq(xs[0], rest[j]) {
        assert rest[j] in multiset(rest);
      }
    }
  }

  lemma {:induction false} SortSorted<T(!new)>(leq: (T, T) -> bool, xs: seq<T>)
    requires Total(leq) && Transitive(leq)
    ensures Sorted(leq, Sort(leq, xs))
  {
    if xs != [] {
      SortSorted(leq, xs[1..]);
      InsertSorted(leq, xs[0], Sort(leq, xs[1..]));
    }
  }

  lemma HeadIsLeast<T(!new)>(leq: (T, T) -> bool, xs: seq<T>, x: T)
    requires Sorted(leq, xs) && Total(leq) && x in xs
    ensures leq(xs[0], x)
  {
    var i :| 0 <= i < |xs| && xs[i] == x;
    if i == 0 {
      assert leq(x, x) || leq(x, x);
    }
  }

  lemma HeadsAgree<T(!new)>(leq: (T, T) -> bool, xs: seq<T>, ys: seq<T>)
    requires Sorted(leq, xs) && Sorted(leq, ys) && Separates(leq, xs) && Total(leq)
    requires multiset(xs) == multiset(ys) && xs != []
    ensures ys != [] && xs[0] == ys[0]
  {
    assert xs[0] in multiset(ys);
    assert ys[0] in multiset(xs);
    HeadIsLeast(leq, xs, ys[0]);
    HeadIsLeast(leq, ys, xs[0]);
  }

  lemma TailsPermute<T>(xs: seq<T>, ys: seq<T>)
    requires xs != [] && ys != [] && xs[0] == ys[0] && multiset(xs) == multiset(ys)
    ensures multiset(xs[1..]) == multiset(ys[1..])
  {
    assert xs == [xs[0]] + xs[1..] && ys == [ys[0]] + ys[1..];
    assert multiset(xs) == multiset{xs[0]} + multiset(xs[1..]);
    assert multiset(ys) == multiset{ys[0]} + multiset(ys[1..]);
    assert multiset(xs[1..]) == multiset(xs) - multiset{xs[0]};
  }

  /** Two sorted arrangements of the same elements are the same sequence. */
  lemma {:induction false} SortedIsUnique<T(!new)>(leq: (T, T) -> bool, xs: seq<T>, ys: seq<T>)
    requires Sorted(leq, xs) && Sorted(leq, ys) && Separates(leq, xs) && Total(leq)
    requires multiset(xs) == multiset(ys)
    ensures xs == ys
  {
    assert |xs| == |multiset(xs)| == |multiset(ys)| == |ys|;
    if xs != [] {
      HeadsAgree(leq, xs, ys);
      TailsPermute(xs, ys);
      SortedIsUnique(leq, xs[1..], ys[1..]);
    }
  }

  /** Sorting forgets the order its input came in. */
  lemma SortIgnoresInputOrder<T(!new)>(leq: (T, T) -> bool, xs: seq<T>, ys: seq<T>)
    requires Total(leq) && Transitive(leq) && Separates(leq, xs)
    requires multiset(xs) == multiset(ys)
    ensures Sort(leq, xs) == Sort(leq, ys)
  {
    SortPermutes(leq, xs);
    SortPermutes(leq, ys);
    SortSorted(leq, xs);
    SortSorted(leq, ys);
    forall x | x in Sort(leq, xs) ensures x in xs {
      assert x in multiset(Sort(leq, xs));
    }
    SortedIsUnique(leq, Sort(leq, xs), Sort(leq, ys));
  }

  ghost predicate Distinct<T>(xs: seq<T>) {
    forall i, j :: 0 <= i < j < |xs| ==> xs[i] != xs[j]
  }

  lemma {:induction false} DistinctCounts<T>(xs: seq<T>)
    ensures Distinct(xs) <==> forall x :: x in multiset(xs) ==> multiset(xs)[x] == 1
  {
    if xs != [] {
      var front, last := xs[..|xs| - 1], xs[|xs| - 1];
      DistinctCounts(front);
      assert xs == front + [last];
      if Distinct(xs) {
        assert last !in front;
      } else if Distinct(front) {
        var i :| 0 <= i < |front| && front[i] == last;
        assert multiset(xs)[last] == multiset(front)[last] + 1;
      } else {
        var x :| x in multiset(front) && multiset(front)[x] != 1;
        assert multiset(xs)[x] >= multiset(front)[x];
      }
    }
  }

  lemma RearrangedDistinct<T>(xs: seq<T>, ys: seq<T>)
    requires Distinct(xs) && multiset(xs) == multiset(ys)
    ensures Distinct(ys)
  {
    DistinctCounts(xs);
    DistinctCounts(ys);
  }

  lemma SortKeepsDistinct<T>(leq: (T, T) -> bool, xs: seq<T>)
    requires Distinct(xs)
    ensures Distinct(Sort(leq, xs))
  {
    SortPermutes(leq, xs);
    RearrangedDistinct(xs, Sort(leq, xs));
  }

  // ---- images ----

  function Map<A, B>(f: A -> B, xs: seq<A>): (r: seq<B>)
    ensures |r| == |xs|
  {
    seq(|xs|, i requires 0 <= i < |xs| => f(xs[i]))
  }

  lemma TakeOut<A>(xs: seq<A>, x: A) returns (i: nat, rest: seq<A>)
    requires x in multiset(xs)
    ensures i < |xs| && xs[i] == x && rest == xs[..i] + xs[i + 1..]
    ensures multiset(xs) == multiset(rest) + multiset{x}
  {
    i :| 0 <= i < |xs| && xs[i] == x;
    rest := xs[..i] + xs[i + 1..];
    assert xs == xs[..i] + [x] + xs[i + 1..];
  }

  lemma MapTakesOut<A, B>(f: A -> B, xs: seq<A>, i: nat)
    requires i < |xs|
    ensures multiset(Map(f, xs)) == multiset(Map(f, xs[..i] + xs[i + 1..])) + multiset{f(xs[i])}
  {
    var front, back := Map(f, xs[..i]), Map(f, xs[i + 1..]);
    assert Map(f, xs) == front + [f(xs[i])] + back;
    assert Map(f, xs[..i] + xs[i + 1..]) == front + back;
  }

  /** Applying a function to rearranged elements gives rearranged results. */
  lemma {:induction false} MapPermutes<A, B>(f: A -> B, xs: seq<A>, ys: seq<A>)
    requires multiset(xs) == multiset(ys)
    ensures multiset(Map(f, xs)) == multiset(Map(f, ys))
  {
    assert |xs| == |multiset(xs)| == |multiset(ys)| == |ys|;
    if xs != [] {
      var i, rest := TakeOut(ys, xs[0]);
      assert xs == [xs[0]] + xs[1..];
      assert xs[..0] + xs[0 + 1..] == xs[1..];
      assert multiset(xs[1..]) == multiset(xs) - multiset{xs[0]} == multiset(rest);
      MapPermutes(f, xs[1..], rest);
      MapTakesOut(f, xs, 0);
      MapTakesOut(f, ys, i);
    }
  }

  // ---- code-point order on strings, as Python compares them ----

  predicate StringLeq(a: string, b: string) {
    if a == [] then true
    else if b == [] then false
    else if a[0] != b[0] then a[0] < b[0]
    else StringLeq(a[1..], b[1..])
  }

  /** They agree up to k, where the first ends or has the smaller character. */
  ghost predicate NotAfterAt(a: string, b: string, k: nat) {
    && k <= |a| && k <= |b| && (forall i :: 0 <= i < k ==> a[i] == b[i])
    && (k == |a| || (k < |b| && a[k] < b[k]))
  }

  lemma NotAfterUnfolds(a: string, b: string, k: nat)
    requires a != [] && b != [] && a[0] == b[0]
    ensures NotAfterAt(a, b, k + 1) <==> NotAfterAt(a[1..], b[1..], k)
  {
    assert a == [a[0]] + a[1..] && b == [b[0]] + b[1..];
    assert NotAfterAt(a[1..], b[1..], k) ==> forall i :: 1 <= i < k + 1 ==> a[i] == a[1..][i - 1] == b[1..][i - 1] == b[i];
    assert NotAfterAt(a, b, k + 1) ==> forall i :: 0 <= i < k ==> a[1..][i] == a[i + 1] == b[i + 1] == b[1..][i];
  }

  /** One string is not after another exactly when it is a beginning of it, or has the smaller character where they first
      differ. */
  lemma {:induction false} StringLeqIsLexicographic(a: string, b: string)
    ensures StringLeq(a, b) <==> exists k: nat :: NotAfterAt(a, b, k)
  {
    if a == [] || b == [] || a[0] != b[0] {
      assert NotAfterAt(a, b, 0) <==> StringLeq(a, b);
      if k: nat :| NotAfterAt(a, b, k) {
        assert k == 0;
      }
    } else {
      StringLeqIsLexicographic(a[1..], b[1..]);
      if k: nat :| NotAfterAt(a[1..], b[1..], k) {
        NotAfterUnfolds(a, b, k);
      }
      if k: nat :| NotAfterAt(a, b, k) {
        NotAfterUnfolds(a, b, k - 1);
      }
    }
  }

  lemma {:induction false} StringLeqTotal(a: string, b: string)
    ensures StringLeq(a, b) || StringLeq(b, a)
  {
    if a != [] && b != [] && a[0] == b[0] {
      StringLeqTotal(a[1..], b[1..]);
    }
  }

  lemma {:induction false} StringLeqTransitive(a: string, b: string, c: string)
    requires StringLeq(a, b) && StringLeq(b, c)
    ensures StringLeq(a, c)
  {
    if a != [] && b != [] && c != [] && a[0] == b[0] == c[0] {
      StringLeqTransitive(a[1..], b[1..], c[1..]);
    }
  }

  lemma {:induction false} StringLeqAntisymmetric(a: string, b: string)
    requires StringLeq(a, b) && StringLeq(b, a)
    ensures a == b
  {
    if a != [] && b != [] {
      StringLeqAntisymmetric(a[1..], b[1..]);
      assert a == [a[0]] + a[1..] && b == [b[0]] + b[1..];
    }
  }
}
