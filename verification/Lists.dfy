/** Sequence vocabulary shared by the modules below. */
module Lists {
  datatype Option<+T> = None | Some(value: T)

  /** `s` is the word in any mixture of capitals and small letters. */
  predicate Spells(s: string, capitals: string, small: string)
    requires |capitals| == |small|
  {
    |s| == |small| && forall i :: 0 <= i < |s| ==> s[i] == capitals[i] || s[i] == small[i]
  }

  lemma Associates<T>(a: seq<T>, b: seq<T>, c: seq<T>)
    ensures (a + b) + c == a + (b + c)
  {
  }

  lemma TakeDrop<T>(xs: seq<T>, k: nat)
    requires k <= |xs|
    ensures xs[..k] + xs[k..] == xs && [] + xs[k..] == xs[k..]
  {
  }

  lemma SplitAround<T>(xs: seq<T>, k: nat)
    requires k < |xs|
    ensures (xs[..k] + [xs[k]]) + xs[k + 1..] == xs
  {
  }

  lemma Unsnoc<T>(xs: seq<T>)
    requires xs != []
    ensures xs == xs[..|xs| - 1] + [xs[|xs| - 1]]
  {
  }

  lemma TakeSnoc<T>(xs: seq<T>, k: nat)
    requires k < |xs|
    ensures xs[..k + 1] == xs[..k] + [xs[k]] && xs[..k + 1][..k] == xs[..k]
  {
  }

  function Elements<T(==)>(xs: seq<T>): set<T> {
    set x | x in xs
  }

  lemma ElementsSnoc<T>(xs: seq<T>)
    requires xs != []
    ensures Elements(xs) == Elements(xs[..|xs| - 1]) + {xs[|xs| - 1]}
  {
    assert xs == xs[..|xs| - 1] + [xs[|xs| - 1]];
  }

  ghost predicate Distinct<T>(xs: seq<T>) {
    forall i, j :: 0 <= i < j < |xs| ==> xs[i] != xs[j]
  }

  /** Elements of `xs` satisfying `p`, in order. */
  function Filter<T>(p: T -> bool, xs: seq<T>): (ys: seq<T>)
    ensures |ys| <= |xs|
  {
    if xs == [] then [] else
    var front := Filter(p, xs[..|xs| - 1]);
    if p(xs[|xs| - 1]) then front + [xs[|xs| - 1]] else front
  }

  lemma {:induction false} FilterMember<T>(p: T -> bool, xs: seq<T>)
    ensures forall x :: x in Filter(p, xs) <==> x in xs && p(x)
  {
    if xs != [] {
      var n := |xs| - 1;
      FilterMember(p, xs[..n]);
      assert xs == xs[..n] + [xs[n]];
    }
  }

  lemma {:induction false} FilterConcat<T>(p: T -> bool, xs: seq<T>, ys: seq<T>)
    ensures Filter(p, xs + ys) == Filter(p, xs) + Filter(p, ys)
  {
    if ys == [] {
      assert xs + ys == xs;
    } else {
      var n := |ys| - 1;
      assert (xs + ys)[..|xs + ys| - 1] == xs + ys[..n];
      FilterConcat(p, xs, ys[..n]);
    }
  }

  lemma FilterSnoc<T>(p: T -> bool, xs: seq<T>, x: T)
    ensures Filter(p, xs + [x]) == if p(x) then Filter(p, xs) + [x] else Filter(p, xs)
  {
    assert (xs + [x])[..|xs|] == xs;
  }

  lemma {:induction false} FilterDistinct<T>(p: T -> bool, xs: seq<T>)
    requires Distinct(xs)
    ensures Distinct(Filter(p, xs))
  {
    if xs != [] {
      FilterDistinct(p, xs[..|xs| - 1]);
      FilterMember(p, xs[..|xs| - 1]);
    }
  }

  lemma {:induction false} FilterAgree<T>(p: T -> bool, q: T -> bool, xs: seq<T>)
    requires forall x :: x in xs ==> p(x) == q(x)
    ensures Filter(p, xs) == Filter(q, xs)
  {
    if xs != [] {
      FilterAgree(p, q, xs[..|xs| - 1]);
    }
  }

  lemma {:induction false} FilterNested<T>(p: T -> bool, q: T -> bool, xs: seq<T>)
    ensures Filter(p, Filter(q, xs)) == Filter(x => q(x) && p(x), xs)
  {
    if xs != [] {
      var last := xs[|xs| - 1];
      FilterNested(p, q, xs[..|xs| - 1]);
      if q(last) {
        FilterSnoc(p, Filter(q, xs[..|xs| - 1]), last);
      }
    }
  }

  lemma {:induction false} FilterNothing<T>(p: T -> bool, xs: seq<T>)
    requires forall x :: x in xs ==> !p(x)
    ensures Filter(p, xs) == []
  {
    if xs != [] {
      FilterNothing(p, xs[..|xs| - 1]);
    }
  }

  lemma {:induction false} FilterEverything<T>(p: T -> bool, xs: seq<T>)
    requires forall x :: x in xs ==> p(x)
    ensures Filter(p, xs) == xs
  {
    if xs != [] {
      FilterEverything(p, xs[..|xs| - 1]);
      assert xs[..|xs| - 1] + [xs[|xs| - 1]] == xs;
    }
  }

  lemma FilterSuffix<T>(p: T -> bool, xs: seq<T>, k: nat)
    requires k <= |xs|
    requires forall i :: 0 <= i < k ==> !p(xs[i])
    requires forall i :: k <= i < |xs| ==> p(xs[i])
    ensures Filter(p, xs) == xs[k..]
  {
    forall x | x in xs[..k]
      ensures !p(x)
    {
      var i :| 0 <= i < k && xs[..k][i] == x;
      assert xs[i] == x;
    }
    FilterNothing(p, xs[..k]);
    forall x | x in xs[k..]
      ensures p(x)
    {
      var i :| 0 <= i < |xs| - k && xs[k..][i] == x;
      assert xs[k + i] == x;
    }
    FilterEverything(p, xs[k..]);
    FilterConcat(p, xs[..k], xs[k..]);
    TakeDrop(xs, k);
  }

  /** `xs` without the elements of `gone`. */
  function Without<T(==)>(xs: seq<T>, gone: set<T>): (ys: seq<T>)
    ensures |ys| <= |xs|
  {
    if xs == [] then [] else
    var n := |xs| - 1;
    if xs[n] in gone then Without(xs[..n], gone) else Without(xs[..n], gone) + [xs[n]]
  }

  lemma {:induction false} WithoutMember<T>(xs: seq<T>, gone: set<T>)
    ensures forall x :: x in Without(xs, gone) <==> x in xs && x !in gone
  {
    if xs != [] {
      var n := |xs| - 1;
      WithoutMember(xs[..n], gone);
      assert xs == xs[..n] + [xs[n]];
    }
  }

  lemma {:induction false} WithoutDistinct<T>(xs: seq<T>, gone: set<T>)
    requires Distinct(xs)
    ensures Distinct(Without(xs, gone))
  {
    if xs != [] {
      WithoutDistinct(xs[..|xs| - 1], gone);
      WithoutMember(xs[..|xs| - 1], gone);
    }
  }

  lemma {:induction false} WithoutNothing<T>(xs: seq<T>, gone: set<T>)
    requires forall x :: x in xs ==> x !in gone
    ensures Without(xs, gone) == xs
  {
    if xs != [] {
      WithoutNothing(xs[..|xs| - 1], gone);
      assert xs[..|xs| - 1] + [xs[|xs| - 1]] == xs;
    }
  }

  lemma WithoutSnoc<T>(xs: seq<T>, x: T, gone: set<T>)
    ensures Without(xs + [x], gone) == if x in gone then Without(xs, gone) else Without(xs, gone) + [x]
  {
    assert (xs + [x])[..|xs|] == xs;
  }

  lemma {:induction false} WithoutTwice<T>(xs: seq<T>, gone: set<T>, more: set<T>)
    ensures Without(Without(xs, gone), more) == Without(xs, gone + more)
  {
    if xs != [] {
      var n := |xs| - 1;
      WithoutTwice(xs[..n], gone, more);
      WithoutSnoc(Without(xs[..n], gone), xs[n], more);
    }
  }

  lemma {:induction false} DistinctCardinality<T>(xs: seq<T>, s: set<T>)
    requires Distinct(xs)
    requires forall x :: x in xs <==> x in s
    ensures |xs| == |s|
  {
    if xs == [] {
      assert s == {};
    } else {
      var n := |xs| - 1;
      assert xs == xs[..n] + [xs[n]];
      DistinctCardinality(xs[..n], s - {xs[n]});
    }
  }

  lemma SubsetCardinality<T>(a: set<T>, b: set<T>)
    requires a <= b
    ensures |a| <= |b|
  {
    if a != {} {
      var x :| x in a;
      SubsetCardinality(a - {x}, b - {x});
    }
  }
}
