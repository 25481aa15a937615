/**
 * The array operations the storefront builds its queries from
 * (`filter`, `find`, `reduce`), on Dafny sequences, with the facts
 * about them that the rest of the model uses.
 */
module Seqs {
  import opened Wrappers

  /** No element occurs twice. */
  predicate NoDups<T(==)>(s: seq<T>) {
    forall i, j :: 0 <= i < j < |s| ==> s[i] != s[j]
  }

  /** `a` is `b` with some elements deleted, the rest kept in order. */
  predicate IsSubseq<T(==)>(a: seq<T>, b: seq<T>)
    decreases |b|
  {
    a == [] || (b != [] && ((a[0] == b[0] && IsSubseq(a[1..], b[1..])) || IsSubseq(a, b[1..])))
  }

  lemma {:induction false} SubseqRefl<T>(s: seq<T>)
    ensures IsSubseq(s, s)
    decreases |s|
  {
    if s != [] {
      SubseqRefl(s[1..]);
    }
  }

  lemma {:induction false} SubseqTrans<T>(a: seq<T>, b: seq<T>, c: seq<T>)
    requires IsSubseq(a, b) && IsSubseq(b, c)
    ensures IsSubseq(a, c)
    decreases |c|
  {
    if a != [] {
      if IsSubseq(b, c[1..]) {
        SubseqTrans(a, b, c[1..]);
      } else if a[0] == b[0] && IsSubseq(a[1..], b[1..]) {
        SubseqTrans(a[1..], b[1..], c[1..]);
      } else {
        SubseqTrans(a, b[1..], c[1..]);
      }
    }
  }

  /** Appending to the whole keeps a subsequence; appending to both keeps it too. */
  lemma {:induction false} SubseqSnoc<T>(a: seq<T>, b: seq<T>, x: T)
    requires IsSubseq(a, b)
    ensures IsSubseq(a, b + [x]) && IsSubseq(a + [x], b + [x])
    decreases |b|
  {
    if b == [] {
      assert a == [];
      assert [] + [x] == [x] && [x][1..] == [];
    } else {
      var bx := b + [x];
      assert bx[0] == b[0] && bx[1..] == b[1..] + [x];
      if a == [] {
        SubseqSnoc(a, b[1..], x);
        assert a + [x] == [x];
      } else {
        var ax := a + [x];
        assert ax[0] == a[0] && ax[1..] == a[1..] + [x];
        if a[0] == b[0] && IsSubseq(a[1..], b[1..]) {
          SubseqSnoc(a[1..], b[1..], x);
        } else {
          SubseqSnoc(a, b[1..], x);
        }
      }
    }
  }

  /** Every element of a subsequence is an element of the whole. */
  lemma {:induction false} SubseqMembers<T>(a: seq<T>, b: seq<T>, x: T)
    requires IsSubseq(a, b) && x in a
    ensures x in b
    decreases |b|
  {
    if a[0] == b[0] && IsSubseq(a[1..], b[1..]) {
      if x != a[0] {
        SubseqMembers(a[1..], b[1..], x);
      }
    } else {
      SubseqMembers(a, b[1..], x);
    }
  }

  /** `Array.prototype.filter`: the elements that `keep` accepts, in their order. */
  function Filter<T(==)>(s: seq<T>, keep: T -> bool): (r: seq<T>)
    ensures |r| <= |s|
    ensures IsSubseq(r, s)
    ensures forall x :: x in r ==> x in s && keep(x)
    ensures forall x :: x in s && keep(x) ==> x in r
  {
    if s == [] then []
    else if keep(s[0]) then [s[0]] + Filter(s[1..], keep)
    else Filter(s[1..], keep)
  }

  /** Filtering a list without duplicates gives a list without duplicates. */
  lemma {:induction false} FilterNoDups<T>(s: seq<T>, keep: T -> bool)
    requires NoDups(s)
    ensures NoDups(Filter(s, keep))
    decreases |s|
  {
    if s != [] {
      FilterNoDups(s[1..], keep);
      assert s[0] !in s[1..];
    }
  }

  /** `filter` keeps every copy of an accepted element and no copy of a rejected one. */
  lemma {:induction false} FilterCounts<T>(s: seq<T>, keep: T -> bool, x: T)
    ensures multiset(Filter(s, keep))[x] == if keep(x) then multiset(s)[x] else 0
    decreases |s|
  {
    if s != [] {
      FilterCounts(s[1..], keep, x);
      assert s == [s[0]] + s[1..];
    }
  }

  /** Two filters in a row are one filter by both tests. */
  lemma {:induction false} FilterFilter<T>(s: seq<T>, first: T -> bool, second: T -> bool, both: T -> bool)
    requires forall x :: x in s ==> (both(x) <==> first(x) && second(x))
    ensures Filter(Filter(s, first), second) == Filter(s, both)
    decreases |s|
  {
    if s != [] {
      assert forall x :: x in s[1..] ==> x in s;
      FilterFilter(s[1..], first, second, both);
    }
  }

  /** Tests that agree on every element filter alike. */
  lemma {:induction false} FilterSame<T>(s: seq<T>, keep: T -> bool, same: T -> bool)
    requires forall x :: x in s ==> (keep(x) <==> same(x))
    ensures Filter(s, keep) == Filter(s, same)
    decreases |s|
  {
    if s != [] {
      assert forall x :: x in s[1..] ==> x in s;
      FilterSame(s[1..], keep, same);
    }
  }

  /** A filter that rejects nothing returns its input. */
  lemma {:induction false} FilterKeepsAll<T>(s: seq<T>, keep: T -> bool)
    requires forall x :: x in s ==> keep(x)
    ensures Filter(s, keep) == s
    decreases |s|
  {
    if s != [] {
      FilterKeepsAll(s[1..], keep);
    }
  }

  /** Filtering a concatenation filters each part. */
  lemma {:induction false} FilterAppend<T>(a: seq<T>, b: seq<T>, keep: T -> bool)
    ensures Filter(a + b, keep) == Filter(a, keep) + Filter(b, keep)
    decreases |a|
  {
    if a == [] {
      assert a + b == b;
    } else {
      var ab := a + b;
      assert ab[0] == a[0] && ab[1..] == a[1..] + b;
      FilterAppend(a[1..], b, keep);
      if keep(a[0]) {
        calc {
          Filter(ab, keep);
          [a[0]] + Filter(a[1..] + b, keep);
          [a[0]] + (Filter(a[1..], keep) + Filter(b, keep));
          ([a[0]] + Filter(a[1..], keep)) + Filter(b, keep);
        }
      } else {
        assert Filter(ab, keep) == Filter(a[1..] + b, keep);
      }
    }
  }

  /** `Array.prototype.find`: the first element that `test` accepts, if any. */
  function Find<T(==)>(s: seq<T>, test: T -> bool): (r: Option<T>)
    ensures r.None? <==> forall x :: x in s ==> !test(x)
    ensures r.Some? ==> r.value in s && test(r.value)
  {
    if s == [] then None
    else if test(s[0]) then Some(s[0])
    else Find(s[1..], test)
  }

  /** What `find` returns sits at a position no earlier element passes. */
  lemma {:induction false} FindPosition<T>(s: seq<T>, test: T -> bool)
    ensures Find(s, test).Some? ==>
              exists i :: 0 <= i < |s| && s[i] == Find(s, test).value && forall j :: 0 <= j < i ==> !test(s[j])
    decreases |s|
  {
    if s != [] && !test(s[0]) && Find(s, test).Some? {
      FindPosition(s[1..], test);
      var i :| 0 <= i < |s[1..]| && s[1..][i] == Find(s, test).value && forall j :: 0 <= j < i ==> !test(s[1..][j]);
      assert s[i + 1] == Find(s, test).value;
    }
  }

  /** What `find` returns is the earliest match. */
  lemma {:induction false} FindIsFirst<T>(s: seq<T>, test: T -> bool, i: int)
    requires 0 <= i < |s| && test(s[i])
    requires forall j :: 0 <= j < i ==> !test(s[j])
    ensures Find(s, test) == Some(s[i])
  {
    if i > 0 {
      assert !test(s[0]);
      FindIsFirst(s[1..], test, i - 1);
    }
  }

  /** When `x` is present and is the only thing `test` accepts, `find` returns `x`. */
  lemma FindUnique<T>(s: seq<T>, test: T -> bool, x: T)
    requires x in s && test(x)
    requires forall y :: y in s && test(y) ==> y == x
    ensures Find(s, test) == Some(x)
  {
  }

  /** `Array.prototype.reduce` with an initial value. */
  function Reduce<T, A>(s: seq<T>, step: (A, T) -> A, acc: A): A
  {
    if s == [] then acc else Reduce(s[1..], step, step(acc, s[0]))
  }

  /** The mathematical sum of `f` over `s`. */
  function Sum<T>(s: seq<T>, f: T -> int): int
  {
    if s == [] then 0 else f(s[0]) + Sum(s[1..], f)
  }

  /** A reduce whose step adds `f` of each element computes the sum of `f`. */
  lemma {:induction false} ReduceIsSum<T>(s: seq<T>, step: (int, T) -> int, f: T -> int, acc: int)
    requires forall a, x :: step(a, x) == a + f(x)
    ensures Reduce(s, step, acc) == acc + Sum(s, f)
    decreases |s|
  {
    if s != [] {
      ReduceIsSum(s[1..], step, f, step(acc, s[0]));
    }
  }

  lemma {:induction false} SumAppend<T>(a: seq<T>, b: seq<T>, f: T -> int)
    ensures Sum(a + b, f) == Sum(a, f) + Sum(b, f)
    decreases |a|
  {
    if a != [] {
      assert (a + b)[1..] == a[1..] + b;
      SumAppend(a[1..], b, f);
    } else {
      assert a + b == b;
    }
  }

  lemma {:induction false} SumNonNegative<T>(s: seq<T>, f: T -> int)
    requires forall x :: x in s ==> f(x) >= 0
    ensures Sum(s, f) >= 0
    decreases |s|
  {
    if s != [] {
      SumNonNegative(s[1..], f);
    }
  }
}
