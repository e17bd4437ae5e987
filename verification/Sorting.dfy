// Sorting and comparison facts shared by the table compiler, the snapshot merge and the allocators.
module Sorting {
  // ---- Sequences sorted by a comparison ----

  predicate Sorted<T>(s: seq<T>, less: (T, T) -> bool) {
    forall i, j :: 0 <= i < j < |s| ==> !less(s[j], s[i])
  }

  ghost predicate WeakOrder<T(!new)>(less: (T, T) -> bool) {
    && (forall a, b :: less(a, b) ==> !less(b, a))
    && (forall a, b, c :: !less(a, b) && !less(b, c) ==> !less(a, c))
  }

  // Any two different elements of s are ordered.
  ghost predicate TotalOn<T(!new)>(s: seq<T>, less: (T, T) -> bool) {
    forall a, b :: a in s && b in s && a != b ==> less(a, b) || less(b, a)
  }

  function Insert<T>(s: seq<T>, x: T, less: (T, T) -> bool): (r: seq<T>)
    ensures multiset(r) == multiset(s) + multiset{x}
  {
    if s == [] then [x]
    else if less(x, s[|s| - 1]) then
      assert s == s[..|s| - 1] + [s[|s| - 1]];
      Insert(s[..|s| - 1], x, less) + [s[|s| - 1]]
    else s + [x]
  }

  function Sort<T>(s: seq<T>, less: (T, T) -> bool): (r: seq<T>)
    ensures multiset(r) == multiset(s) && |r| == |s|
  {
    if s == [] then []
    else
      assert s == s[..|s| - 1] + [s[|s| - 1]];
      var r := Insert(Sort(s[..|s| - 1], less), s[|s| - 1], less);
      assert |multiset(r)| == |multiset(s)|;
      r
  }

  lemma {:induction false} InsertSorted<T(!new)>(s: seq<T>, x: T, less: (T, T) -> bool)
    requires WeakOrder(less) && Sorted(s, less)
    ensures Sorted(Insert(s, x, less), less)
  {
    if s != [] && less(x, s[|s| - 1]) {
      var front, last := s[..|s| - 1], s[|s| - 1];
      InsertSorted(front, x, less);
      var r := Insert(front, x, less);
      forall i | 0 <= i < |r|
        ensures !less(last, r[i])
      {
        assert r[i] in multiset(r);
        if r[i] in front {
        } else {
          assert r[i] == x;
        }
      }
    }
  }

  lemma {:induction false} SortSorted<T(!new)>(s: seq<T>, less: (T, T) -> bool)
    requires WeakOrder(less)
    ensures Sorted(Sort(s, less), less)
  {
    if s != [] {
      SortSorted(s[..|s| - 1], less);
      InsertSorted(Sort(s[..|s| - 1], less), s[|s| - 1], less);
    }
  }

  // A sorted arrangement is unique where no two different elements tie.
  lemma {:induction false} SortedUnique<T(!new)>(a: seq<T>, b: seq<T>, less: (T, T) -> bool)
    requires Sorted(a, less) && Sorted(b, less) && multiset(a) == multiset(b) && TotalOn(a, less)
    ensures a == b
  {
    assert |multiset(a)| == |multiset(b)|;
    if a != [] {
      assert a[0] in multiset(b) && b[0] in multiset(a);
      assert a[0] == b[0];
      assert a == [a[0]] + a[1..] && b == [b[0]] + b[1..];
      assert multiset(a[1..]) == multiset(a) - multiset{a[0]};
      SortedUnique(a[1..], b[1..], less);
    }
  }

  // Sorting forgets the input order where no two different elements tie.
  lemma {:induction false} SortCanonical<T(!new)>(a: seq<T>, b: seq<T>, less: (T, T) -> bool)
    requires WeakOrder(less) && multiset(a) == multiset(b) && TotalOn(a, less)
    ensures Sort(a, less) == Sort(b, less)
  {
    SortSorted(a, less);
    SortSorted(b, less);
    var r := Sort(a, less);
    forall x, y | x in r && y in r && x != y
      ensures less(x, y) || less(y, x)
    {
      assert x in multiset(r) && y in multiset(r);
    }
    SortedUnique(r, Sort(b, less), less);
  }

  // ---- Lexicographic comparison ----

  function CharRank(c: char): int { c as int }

  predicate Lex<T>(a: seq<T>, b: seq<T>, rank: T -> int) {
    b != [] && (a == [] || rank(a[0]) < rank(b[0]) || (rank(a[0]) == rank(b[0]) && Lex(a[1..], b[1..], rank)))
  }

  predicate StringLess(a: string, b: string) {
    Lex(a, b, CharRank)
  }

  lemma {:induction false} LexAsymmetric<T>(a: seq<T>, b: seq<T>, rank: T -> int)
    requires Lex(a, b, rank)
    ensures !Lex(b, a, rank)
  {
    if a != [] && rank(a[0]) == rank(b[0]) {
      LexAsymmetric(a[1..], b[1..], rank);
    }
  }

  lemma {:induction false} LexTotal<T>(a: seq<T>, b: seq<T>, rank: T -> int)
    requires a != b && forall x, y :: x in a && y in b && rank(x) == rank(y) ==> x == y
    ensures Lex(a, b, rank) || Lex(b, a, rank)
  {
    if a != [] && b != [] && rank(a[0]) == rank(b[0]) {
      assert a == [a[0]] + a[1..] && b == [b[0]] + b[1..];
      LexTotal(a[1..], b[1..], rank);
    }
  }

  lemma {:induction false} LexTransitive<T>(a: seq<T>, b: seq<T>, c: seq<T>, rank: T -> int)
    requires Lex(a, b, rank) && Lex(b, c, rank)
    ensures Lex(a, c, rank)
  {
    if a != [] && rank(a[0]) == rank(b[0]) == rank(c[0]) {
      LexTransitive(a[1..], b[1..], c[1..], rank);
    }
  }

  lemma StringOrder(a: string, b: string, c: string)
    ensures !(StringLess(a, b) && StringLess(b, a))
    ensures a != b ==> StringLess(a, b) || StringLess(b, a)
    ensures StringLess(a, b) && StringLess(b, c) ==> StringLess(a, c)
  {
    if StringLess(a, b) {
      LexAsymmetric(a, b, CharRank);
      if StringLess(b, c) {
        LexTransitive(a, b, c, CharRank);
      }
    }
    if a != b {
      LexTotal(a, b, CharRank);
    }
  }

  // ---- Reordering ----

  function Map<T, R>(s: seq<T>, f: T -> R): (r: seq<R>)
    ensures |r| == |s| && forall i :: 0 <= i < |s| ==> r[i] == f(s[i])
  {
    seq(|s|, i requires 0 <= i < |s| => f(s[i]))
  }

  lemma AppendNext<T>(before: seq<T>, s: seq<T>, j: nat)
    requires j < |s|
    ensures before + s[..j] + [s[j]] == before + s[..j + 1] <= before + s
  {
    assert before + s == before + s[..j + 1] + s[j + 1..];
  }

  lemma MapAppend<T, R>(s: seq<T>, x: T, f: T -> R)
    ensures Map(s + [x], f) == Map(s, f) + [f(x)]
  {
  }

  lemma MapConcat<T, R>(a: seq<T>, b: seq<T>, f: T -> R)
    ensures Map(a + b, f) == Map(a, f) + Map(b, f)
  {
  }

  function Sum<T, R>(s: seq<T>, g: T -> multiset<R>): multiset<R> {
    if s == [] then multiset{} else g(s[0]) + Sum(s[1..], g)
  }

  function Without<T>(s: seq<T>, i: nat): seq<T>
    requires i < |s|
  {
    s[..i] + s[i + 1..]
  }

  lemma {:induction false} SumWithout<T, R>(s: seq<T>, i: nat, g: T -> multiset<R>)
    requires i < |s|
    ensures Sum(s, g) == g(s[i]) + Sum(Without(s, i), g)
  {
    if i == 0 {
      assert Without(s, 0) == s[1..];
    } else {
      SumWithout(s[1..], i - 1, g);
      assert Without(s, i)[1..] == Without(s[1..], i - 1);
    }
  }

  lemma MapWithout<T, R>(s: seq<T>, i: nat, f: T -> R)
    requires i < |s|
    ensures multiset(Map(s, f)) == multiset(Map(Without(s, i), f)) + multiset{f(s[i])}
  {
    var m := Map(s, f);
    assert m == m[..i] + [m[i]] + m[i + 1..];
    assert Map(Without(s, i), f) == m[..i] + m[i + 1..];
  }

  ghost predicate Determines<T(!new), S, R>(shape: T -> S, g: T -> multiset<R>) {
    forall x, y :: shape(x) == shape(y) ==> g(x) == g(y)
  }

  // Some element of b has the shape of the first element of a; both can be set aside.
  lemma MatchFirst<T, S>(a: seq<T>, b: seq<T>, shape: T -> S) returns (i: nat)
    requires a != [] && multiset(Map(a, shape)) == multiset(Map(b, shape))
    ensures i < |b| && shape(b[i]) == shape(a[0])
    ensures multiset(Map(a[1..], shape)) == multiset(Map(Without(b, i), shape))
  {
    i := IndexOfImage(Map(a, shape), Map(b, shape));
    MapWithout(a, 0, shape);
    MapWithout(b, i, shape);
    assert Without(a, 0) == a[1..];
    Cancel(multiset(Map(a[1..], shape)), multiset(Map(Without(b, i), shape)), shape(a[0]));
  }

  lemma IndexOfImage<S>(a: seq<S>, b: seq<S>) returns (i: nat)
    requires a != [] && multiset(a) == multiset(b)
    ensures i < |b| && b[i] == a[0]
  {
    assert a[0] in multiset(b);
    i :| i < |b| && b[i] == a[0];
  }

  lemma Cancel<S>(a: multiset<S>, b: multiset<S>, x: S)
    requires a + multiset{x} == b + multiset{x}
    ensures a == b
  {
    assert a == a + multiset{x} - multiset{x};
  }

  // What a sum adds up to depends only on the multiset of whatever determines each summand.
  lemma {:induction false} SumReordered<T(!new), S, R>(a: seq<T>, b: seq<T>, shape: T -> S, g: T -> multiset<R>)
    requires multiset(Map(a, shape)) == multiset(Map(b, shape)) && Determines(shape, g)
    ensures Sum(a, g) == Sum(b, g)
  {
    assert |multiset(Map(a, shape))| == |multiset(Map(b, shape))|;
    if a != [] {
      var i := MatchFirst(a, b, shape);
      SumReordered(a[1..], Without(b, i), shape, g);
      SumWithout(b, i, g);
    }
  }

  // The multiset of images depends only on the multiset of whatever determines each image.
  lemma {:induction false} ImagesReordered<T(!new), S, R>(a: seq<T>, b: seq<T>, shape: T -> S, f: T -> R)
    requires multiset(Map(a, shape)) == multiset(Map(b, shape))
    requires forall x, y :: shape(x) == shape(y) ==> f(x) == f(y)
    ensures multiset(Map(a, f)) == multiset(Map(b, f))
  {
    assert |multiset(Map(a, shape))| == |multiset(Map(b, shape))|;
    if a != [] {
      var i := MatchFirst(a, b, shape);
      ImagesReordered(a[1..], Without(b, i), shape, f);
      MapWithout(a, 0, f);
      MapWithout(b, i, f);
      assert Without(a, 0) == a[1..];
    }
  }

  lemma MapPermuted<T(!new), R>(a: seq<T>, b: seq<T>, f: T -> R)
    requires multiset(a) == multiset(b)
    ensures multiset(Map(a, f)) == multiset(Map(b, f))
  {
    assert Map(a, x => x) == a && Map(b, x => x) == b;
    ImagesReordered(a, b, x => x, f);
  }

  predicate Distinct<T(==)>(s: seq<T>) {
    forall i, j :: 0 <= i < j < |s| ==> s[i] != s[j]
  }

  // Adding one element at a time keeps a sequence distinct exactly when it is new.
  lemma DistinctStep<T>(s: seq<T>, k: nat)
    requires k < |s| && Distinct(s[..k])
    ensures Distinct(s[..k + 1]) <==> s[k] !in s[..k]
    ensures Distinct(s) ==> Distinct(s[..k + 1])
  {
    var t := s[..k + 1];
    assert t[k] == s[k] && t[..k] == s[..k];
    assert forall i :: 0 <= i < k ==> t[i] == s[..k][i];
    if s[k] in s[..k] {
      var i :| 0 <= i < k && s[..k][i] == s[k];
      assert t[i] == t[k];
    }
  }

  // The first i elements are distinct and are the ones seen.
  ghost predicate Seen<T(!new)>(s: seq<T>, i: nat, seen: set<T>)
    requires i <= |s|
  {
    Distinct(s[..i]) && forall x :: x in seen <==> x in s[..i]
  }

  lemma SeenNext<T(!new)>(s: seq<T>, i: nat, seen: set<T>)
    requires i < |s| && Seen(s, i, seen)
    ensures s[i] !in seen ==> Seen(s, i + 1, seen + {s[i]})
    ensures s[i] in seen ==> !Distinct(s)
  {
    DistinctStep(s, i);
    assert s[..i + 1] == s[..i] + [s[i]];
  }

  lemma {:induction false} DistinctCounts<T>(s: seq<T>)
    ensures Distinct(s) <==> forall x :: x in multiset(s) ==> multiset(s)[x] == 1
  {
    if s != [] {
      var front, last := s[..|s| - 1], s[|s| - 1];
      assert s == front + [last];
      DistinctCounts(front);
      if last in front {
        var i :| 0 <= i < |front| && front[i] == last;
        assert s[i] == s[|s| - 1];
        assert multiset(s)[last] >= 2;
      } else {
        assert last !in multiset(front);
      }
      if Distinct(front) && last !in front {
        forall i, j | 0 <= i < j < |s|
          ensures s[i] != s[j]
        {
          if j == |s| - 1 {
            assert s[i] == front[i];
          }
        }
      }
      if !Distinct(front) {
        var i, j :| 0 <= i < j < |front| && front[i] == front[j];
        assert s[i] == s[j];
        assert multiset(front)[front[i]] != 1 || exists x :: x in multiset(front) && multiset(front)[x] != 1;
        var x :| x in multiset(front) && multiset(front)[x] != 1;
        assert multiset(s)[x] > 1;
      }
    }
  }

  lemma DistinctPermuted<T>(a: seq<T>, b: seq<T>)
    requires multiset(a) == multiset(b)
    ensures Distinct(a) <==> Distinct(b)
  {
    DistinctCounts(a);
    DistinctCounts(b);
  }

  lemma {:induction false} SumPermuted<T(!new), R>(a: seq<T>, b: seq<T>, g: T -> multiset<R>)
    requires multiset(a) == multiset(b)
    ensures Sum(a, g) == Sum(b, g)
  {
    assert Map(a, x => x) == a && Map(b, x => x) == b;
    SumReordered(a, b, x => x, g);
  }

  lemma {:induction false} SumMember<T, R>(s: seq<T>, g: T -> multiset<R>, x: R)
    requires x in Sum(s, g)
    ensures exists y :: y in s && x in g(y)
  {
    if s != [] && x !in g(s[0]) {
      SumMember(s[1..], g, x);
      var y :| y in s[1..] && x in g(y);
      assert y in s;
    } else if s != [] {
      assert s[0] in s;
    }
  }

  lemma {:induction false} SumConcat<T, R>(a: seq<T>, b: seq<T>, g: T -> multiset<R>)
    ensures Sum(a + b, g) == Sum(a, g) + Sum(b, g)
  {
    if a == [] {
      assert a + b == b;
    } else {
      SumConcat(a[1..], b, g);
      assert (a + b)[1..] == a[1..] + b;
    }
  }

  lemma {:induction false} SumSame<T, R>(s: seq<T>, g: T -> multiset<R>, h: T -> multiset<R>)
    requires forall x :: x in s ==> g(x) == h(x)
    ensures Sum(s, g) == Sum(s, h)
  {
    if s != [] {
      SumSame(s[1..], g, h);
    }
  }

  lemma {:induction false} SumAppend<T, R>(s: seq<T>, y: T, g: T -> multiset<R>)
    ensures Sum(s + [y], g) == Sum(s, g) + g(y)
  {
    SumWithout(s + [y], |s|, g);
    assert Without(s + [y], |s|) == s;
  }

  lemma DistinctConcat<T>(a: seq<T>, b: seq<T>)
    requires Distinct(a) && Distinct(b) && forall x :: x in a ==> x !in b
    ensures Distinct(a + b)
  {
    var t := a + b;
    forall i, j | 0 <= i < j < |t|
      ensures t[i] != t[j]
    {
      if i < |a| <= j {
        assert t[i] in a && t[j] in b;
      }
    }
  }

  // Distinct sequences with the same elements are permutations of each other.
  lemma SameElements<T>(a: seq<T>, b: seq<T>)
    requires Distinct(a) && Distinct(b) && forall x :: x in a <==> x in b
    ensures multiset(a) == multiset(b)
  {
    DistinctCounts(a);
    DistinctCounts(b);
    forall x
      ensures multiset(a)[x] == multiset(b)[x]
    {
      assert x in multiset(a) <==> x in a;
      assert x in multiset(b) <==> x in b;
    }
  }
}
