/** Order-preserving selection from a sequence. */
module Sequences {
  /** `xs` is obtained from `ys` by leaving entries out, keeping the order of the rest. */
  predicate SubsequenceOf<T(==)>(xs: seq<T>, ys: seq<T>)
    decreases |ys|
  {
    if xs == [] then true
    else if ys == [] then false
    else (xs[|xs| - 1] == ys[|ys| - 1] && SubsequenceOf(xs[..|xs| - 1], ys[..|ys| - 1])) ||
         SubsequenceOf(xs, ys[..|ys| - 1])
  }

  /** No entry occurs twice. */
  predicate Distinct<T(==)>(xs: seq<T>) {
    forall i, j :: 0 <= i < j < |xs| ==> xs[i] != xs[j]
  }

  /** Every entry of a subsequence is an entry of the sequence. */
  lemma {:induction false} SubsequenceMembers<T>(xs: seq<T>, ys: seq<T>)
    requires SubsequenceOf(xs, ys)
    ensures forall x :: x in xs ==> x in ys
    decreases |ys|
  {
    if xs != [] {
      var ys' := ys[..|ys| - 1];
      if xs[|xs| - 1] == ys[|ys| - 1] && SubsequenceOf(xs[..|xs| - 1], ys') {
        SubsequenceMembers(xs[..|xs| - 1], ys');
        assert xs == xs[..|xs| - 1] + [xs[|xs| - 1]];
      } else {
        SubsequenceMembers(xs, ys');
      }
    }
  }

  /** A subsequence of `ys` is a subsequence of `ys` followed by anything. */
  lemma {:induction false} SubsequenceAppend<T>(xs: seq<T>, ys: seq<T>, zs: seq<T>)
    requires SubsequenceOf(xs, ys)
    ensures SubsequenceOf(xs, ys + zs)
    decreases |zs|
  {
    if zs != [] {
      SubsequenceAppend(xs, ys, zs[..|zs| - 1]);
      assert (ys + zs)[..|ys + zs| - 1] == ys + zs[..|zs| - 1];
    } else {
      assert ys + zs == ys;
    }
  }

  /** Subsequences of two sequences concatenate to a subsequence of their concatenation. */
  lemma {:induction false} SubsequenceConcat<T>(a: seq<T>, b: seq<T>, c: seq<T>, d: seq<T>)
    requires SubsequenceOf(a, b) && SubsequenceOf(c, d)
    ensures SubsequenceOf(a + c, b + d)
    decreases |d|
  {
    if c == [] {
      assert a + c == a;
      SubsequenceAppend(a, b, d);
    } else {
      var d' := d[..|d| - 1];
      assert (b + d)[..|b + d| - 1] == b + d';
      assert (a + c)[|a + c| - 1] == c[|c| - 1];
      if c[|c| - 1] == d[|d| - 1] && SubsequenceOf(c[..|c| - 1], d') {
        SubsequenceConcat(a, b, c[..|c| - 1], d');
        assert (a + c)[..|a + c| - 1] == a + c[..|c| - 1];
      } else {
        SubsequenceConcat(a, b, c, d');
      }
    }
  }

  /** Every sequence is a subsequence of itself. */
  lemma {:induction false} SubsequenceRefl<T>(xs: seq<T>)
    ensures SubsequenceOf(xs, xs)
    decreases |xs|
  {
    if xs != [] {
      SubsequenceRefl(xs[..|xs| - 1]);
    }
  }

  /** Leaving entries out of a sequence without repetitions gives one without repetitions. */
  lemma {:induction false} SubsequenceDistinct<T>(xs: seq<T>, ys: seq<T>)
    requires SubsequenceOf(xs, ys) && Distinct(ys)
    ensures Distinct(xs)
    decreases |ys|
  {
    if xs != [] {
      var ys' := ys[..|ys| - 1];
      assert Distinct(ys');
      if xs[|xs| - 1] == ys[|ys| - 1] && SubsequenceOf(xs[..|xs| - 1], ys') {
        var xs' := xs[..|xs| - 1];
        SubsequenceDistinct(xs', ys');
        SubsequenceMembers(xs', ys');
        assert ys[|ys| - 1] !in ys';
        forall i, j | 0 <= i < j < |xs|
          ensures xs[i] != xs[j]
        {
          if j < |xs| - 1 {
            assert xs[i] == xs'[i] && xs[j] == xs'[j];
          } else {
            assert xs[i] == xs'[i] && xs'[i] in xs';
          }
        }
      } else {
        SubsequenceDistinct(xs, ys');
      }
    }
  }

  /** A subsequence is at most as long as the sequence. */
  lemma {:induction false} SubsequenceShorter<T>(xs: seq<T>, ys: seq<T>)
    requires SubsequenceOf(xs, ys)
    ensures |xs| <= |ys|
    decreases |ys|
  {
    if xs != [] {
      var ys' := ys[..|ys| - 1];
      if xs[|xs| - 1] == ys[|ys| - 1] && SubsequenceOf(xs[..|xs| - 1], ys') {
        SubsequenceShorter(xs[..|xs| - 1], ys');
      } else {
        SubsequenceShorter(xs, ys');
      }
    }
  }

  /** A subsequence of a subsequence is a subsequence. */
  lemma {:induction false} SubsequenceTransitive<T>(xs: seq<T>, ys: seq<T>, zs: seq<T>)
    requires SubsequenceOf(xs, ys) && SubsequenceOf(ys, zs)
    ensures SubsequenceOf(xs, zs)
    decreases |zs|
  {
    if xs != [] {
      var zs' := zs[..|zs| - 1];
      var ys' := ys[..|ys| - 1];
      if ys[|ys| - 1] == zs[|zs| - 1] && SubsequenceOf(ys', zs') {
        if xs[|xs| - 1] == ys[|ys| - 1] && SubsequenceOf(xs[..|xs| - 1], ys') {
          SubsequenceTransitive(xs[..|xs| - 1], ys', zs');
        } else {
          SubsequenceTransitive(xs, ys', zs');
        }
      } else {
        SubsequenceTransitive(xs, ys, zs');
      }
    }
  }

  /** The entries of `s` that satisfy `p`, in order (`s.filter(p)`). */
  function Filter<T>(s: seq<T>, p: T -> bool): seq<T>
    decreases |s|
  {
    if s == [] then []
    else Filter(s[..|s| - 1], p) + (if p(s[|s| - 1]) then [s[|s| - 1]] else [])
  }

  /** Filtering after appending one entry. */
  lemma FilterSnoc<T>(s: seq<T>, x: T, p: T -> bool)
    ensures Filter(s + [x], p) == Filter(s, p) + (if p(x) then [x] else [])
  {
    assert (s + [x])[..|s|] == s;
  }

  /** A filter keeps exactly the entries that satisfy the predicate, in their order. */
  lemma {:induction false} FilterSpec<T>(s: seq<T>, p: T -> bool)
    ensures forall x :: x in Filter(s, p) <==> x in s && p(x)
    ensures SubsequenceOf(Filter(s, p), s)
    decreases |s|
  {
    if s != [] {
      var front := s[..|s| - 1];
      var last := s[|s| - 1];
      assert s == front + [last];
      FilterSpec(front, p);
      var rest := Filter(front, p);
      if p(last) {
        assert (rest + [last])[..|rest|] == rest;
      } else {
        SubsequenceAppend(rest, front, [last]);
        assert rest + [] == rest;
      }
    }
  }
}
