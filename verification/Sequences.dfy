/** Filtering, searching and mapping sequences, and what of it survives a permutation. */
module Sequences {
  import opened Wrappers

  function Filter<T>(s: seq<T>, p: T -> bool): seq<T> {
    if s == [] then [] else Filter(s[..|s| - 1], p) + (if p(s[|s| - 1]) then [s[|s| - 1]] else [])
  }

  function Map<T, U>(s: seq<T>, f: T -> U): seq<U> {
    if s == [] then [] else Map(s[..|s| - 1], f) + [f(s[|s| - 1])]
  }

  lemma {:induction false} MapAt<T, U>(s: seq<T>, f: T -> U)
    ensures |Map(s, f)| == |s| && forall i | 0 <= i < |s| :: Map(s, f)[i] == f(s[i])
    ensures forall y :: y in Map(s, f) <==> exists x :: x in s && f(x) == y
  {
    if s != [] {
      MapAt(s[..|s| - 1], f);
      assert s == s[..|s| - 1] + [s[|s| - 1]];
    }
  }

  /** The first element that passes. */
  function First<T>(s: seq<T>, p: T -> bool): (r: Option<T>)
    ensures r.None? <==> forall x | x in s :: !p(x)
    ensures r.Some? ==> r.value in s && p(r.value)
  {
    if s == [] then None else if p(s[0]) then Some(s[0]) else First(s[1..], p)
  }

  function Conj<T>(p: T -> bool, q: T -> bool): T -> bool {
    x => p(x) && q(x)
  }

  lemma {:induction false} FilterKeeps<T>(s: seq<T>, p: T -> bool)
    ensures forall x :: x in Filter(s, p) <==> x in s && p(x)
  {
    if s != [] {
      FilterKeeps(s[..|s| - 1], p);
      assert s == s[..|s| - 1] + [s[|s| - 1]];
    }
  }

  lemma {:induction false} FilterTwice<T>(s: seq<T>, p: T -> bool, q: T -> bool)
    ensures Filter(Filter(s, p), q) == Filter(s, Conj(p, q))
  {
    if s != [] {
      var n := |s| - 1;
      FilterTwice(s[..n], p, q);
      var kept := Filter(s[..n], p);
      if p(s[n]) {
        assert (kept + [s[n]])[..|kept|] == kept;
      } else {
        assert kept + [] == kept;
      }
    }
  }

  lemma {:induction false} FilterSame<T>(s: seq<T>, p: T -> bool, q: T -> bool)
    requires forall x | x in s :: p(x) == q(x)
    ensures Filter(s, p) == Filter(s, q)
  {
    if s != [] {
      FilterSame(s[..|s| - 1], p, q);
    }
  }

  lemma {:induction false} FilterAll<T>(s: seq<T>, p: T -> bool)
    requires forall x | x in s :: p(x)
    ensures Filter(s, p) == s
  {
    if s != [] {
      FilterAll(s[..|s| - 1], p);
      assert s == s[..|s| - 1] + [s[|s| - 1]];
    }
  }

  // ---------------------------------------------------------------- permutations

  /** A permutation of `s` without its last element: the others of `t`, in their order. */
  lemma WithoutLast<T>(s: seq<T>, t: seq<T>) returns (before: seq<T>, after: seq<T>)
    requires s != [] && multiset(s) == multiset(t)
    ensures t == before + [s[|s| - 1]] + after
    ensures multiset(before + after) == multiset(s[..|s| - 1])
  {
    var n := |s| - 1;
    assert s == s[..n] + [s[n]];
    assert s[n] in multiset(t);
    var j :| 0 <= j < |t| && t[j] == s[n];
    before, after := t[..j], t[j + 1..];
    assert t == before + [t[j]] + after;
    assert multiset(s[..n]) == multiset(s) - multiset{s[n]};
    assert multiset(before + after) == multiset(t) - multiset{t[j]};
  }

  lemma {:induction false} FilterJoins<T>(s: seq<T>, t: seq<T>, p: T -> bool)
    ensures Filter(s + t, p) == Filter(s, p) + Filter(t, p)
  {
    if t == [] {
      assert s + t == s;
    } else {
      assert (s + t)[..|s + t| - 1] == s + t[..|t| - 1];
      FilterJoins(s, t[..|t| - 1], p);
    }
  }

  lemma {:induction false} FilterPermuted<T>(s: seq<T>, t: seq<T>, p: T -> bool)
    requires multiset(s) == multiset(t)
    ensures multiset(Filter(s, p)) == multiset(Filter(t, p))
    decreases |s|
  {
    assert |s| == |multiset(s)| && |t| == |multiset(t)|;
    if s != [] {
      var x := s[|s| - 1];
      var before, after := WithoutLast(s, t);
      FilterPermuted(s[..|s| - 1], before + after, p);
      FilterJoins(before, after, p);
      FilterJoins(before, [x], p);
      FilterJoins(before + [x], after, p);
    }
  }

  lemma {:induction false} MapJoins<T, U>(s: seq<T>, t: seq<T>, f: T -> U)
    ensures Map(s + t, f) == Map(s, f) + Map(t, f)
  {
    if t == [] {
      assert s + t == s;
    } else {
      assert (s + t)[..|s + t| - 1] == s + t[..|t| - 1];
      MapJoins(s, t[..|t| - 1], f);
    }
  }

  lemma {:induction false} MapPermuted<T, U>(s: seq<T>, t: seq<T>, f: T -> U)
    requires multiset(s) == multiset(t)
    ensures multiset(Map(s, f)) == multiset(Map(t, f))
    decreases |s|
  {
    assert |s| == |multiset(s)| && |t| == |multiset(t)|;
    if s != [] {
      var x := s[|s| - 1];
      var before, after := WithoutLast(s, t);
      MapPermuted(s[..|s| - 1], before + after, f);
      MapJoins(before, after, f);
      MapJoins(before, [x], f);
      MapJoins(before + [x], after, f);
    }
  }

  /** Where only one element can pass, it does not matter in which order the search goes. */
  lemma FirstPermuted<T>(s: seq<T>, t: seq<T>, p: T -> bool)
    requires forall x :: x in s <==> x in t
    requires forall x, y | x in s && y in s && p(x) && p(y) :: x == y
    ensures First(s, p) == First(t, p)
  {
  }
}
