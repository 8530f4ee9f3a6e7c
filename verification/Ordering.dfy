/**
 Strings in byte order, and the sort the Go standard library performs, with the one fact
 callers rely on: a sort by an order that separates the elements forgets the input order.
 */
module Ordering {

  predicate StrLeq(a: string, b: string) {
    if a == [] then true
    else if b == [] then false
    else if a[0] != b[0] then a[0] < b[0]
    else StrLeq(a[1..], b[1..])
  }

  lemma {:induction false} StrLeqTotal(a: string, b: string)
    ensures StrLeq(a, b) || StrLeq(b, a)
    ensures StrLeq(a, b) && StrLeq(b, a) ==> a == b
  {
    if a != [] && b != [] && a[0] == b[0] {
      StrLeqTotal(a[1..], b[1..]);
      assert a == [a[0]] + a[1..] && b == [b[0]] + b[1..];
    }
  }

  lemma {:induction false} StrLeqTransitive(a: string, b: string, c: string)
    requires StrLeq(a, b) && StrLeq(b, c)
    ensures StrLeq(a, c)
  {
    if a != [] && b != [] && c != [] && a[0] == b[0] == c[0] {
      StrLeqTransitive(a[1..], b[1..], c[1..]);
    }
  }

  ghost predicate Total<T(!new)>(leq: (T, T) -> bool) {
    forall x, y :: leq(x, y) || leq(y, x)
  }

  ghost predicate Transitive<T(!new)>(leq: (T, T) -> bool) {
    forall x, y, z :: leq(x, y) && leq(y, z) ==> leq(x, z)
  }

  /** No two different elements of `s` tie. */
  ghost predicate Separates<T>(leq: (T, T) -> bool, s: seq<T>) {
    forall x, y | x in s && y in s && leq(x, y) && leq(y, x) :: x == y
  }

  ghost predicate Sorted<T>(leq: (T, T) -> bool, s: seq<T>) {
    forall i, j | 0 <= i < j < |s| :: leq(s[i], s[j])
  }

  /** Places `x` before the first element it is not after, so equal elements keep their order. */
  function Insert<T>(leq: (T, T) -> bool, x: T, s: seq<T>): (r: seq<T>)
    ensures multiset(r) == multiset(s) + multiset{x}
  {
    if s == [] then [x]
    else if leq(x, s[0]) then [x] + s
    else
      assert s == [s[0]] + s[1..];
      [s[0]] + Insert(leq, x, s[1..])
  }

  function SortBy<T>(leq: (T, T) -> bool, s: seq<T>): (r: seq<T>)
    ensures multiset(r) == multiset(s)
  {
    if s == [] then []
    else
      assert s == [s[0]] + s[1..];
      Insert(leq, s[0], SortBy(leq, s[1..]))
  }

  lemma {:induction false} InsertSorts<T(!new)>(leq: (T, T) -> bool, x: T, s: seq<T>)
    requires Total(leq) && Transitive(leq) && Sorted(leq, s)
    ensures Sorted(leq, Insert(leq, x, s))
  {
    if s != [] && !leq(x, s[0]) {
      InsertSorts(leq, x, s[1..]);
      var rest := Insert(leq, x, s[1..]);
      forall j | 0 <= j < |rest| ensures leq(s[0], rest[j]) {
        assert rest[j] in multiset(rest);
        assert rest[j] == x || rest[j] in multiset(s[1..]);
      }
    }
  }

  lemma {:induction false} SortSorts<T(!new)>(leq: (T, T) -> bool, s: seq<T>)
    requires Total(leq) && Transitive(leq)
    ensures Sorted(leq, SortBy(leq, s))
  {
    if s != [] {
      SortSorts(leq, s[1..]);
      InsertSorts(leq, s[0], SortBy(leq, s[1..]));
    }
  }

  lemma SameElements<T>(s: seq<T>, t: seq<T>)
    requires multiset(s) == multiset(t)
    ensures |s| == |t| && (forall x :: x in s <==> x in t)
  {
    assert |multiset(s)| == |s| && |multiset(t)| == |t|;
    forall x ensures x in s <==> x in t {
      assert x in s <==> x in multiset(s);
      assert x in t <==> x in multiset(t);
    }
  }

  lemma SortedHead<T(!new)>(leq: (T, T) -> bool, s: seq<T>, x: T)
    requires Total(leq) && Sorted(leq, s) && x in s
    ensures leq(s[0], x)
  {
    var i :| 0 <= i < |s| && s[i] == x;
    if i == 0 {
      assert leq(x, x) || leq(x, x);
    }
  }

  lemma RestOf<T>(s: seq<T>)
    requires s != []
    ensures multiset(s[1..]) == multiset(s) - multiset{s[0]}
  {
    assert s == [s[0]] + s[1..];
  }

  /** Two sorted arrangements of the same elements are one and the same. */
  lemma {:induction false} SortedUnique<T(!new)>(leq: (T, T) -> bool, s: seq<T>, t: seq<T>)
    requires Total(leq) && Sorted(leq, s) && Sorted(leq, t) && Separates(leq, s)
    requires multiset(s) == multiset(t)
    ensures s == t
  {
    SameElements(s, t);
    if s != [] {
      SortedHead(leq, s, t[0]);
      SortedHead(leq, t, s[0]);
      RestOf(s);
      RestOf(t);
      forall x | x in s[1..] ensures x in s {}
      SortedUnique(leq, s[1..], t[1..]);
      assert s == [s[0]] + s[1..] && t == [t[0]] + t[1..];
    }
  }

  /** Sorting by an order that separates the elements gives the same answer for every input order. */
  lemma SortForgetsOrder<T(!new)>(leq: (T, T) -> bool, s: seq<T>, t: seq<T>)
    requires Total(leq) && Transitive(leq) && Separates(leq, s)
    requires multiset(s) == multiset(t)
    ensures SortBy(leq, s) == SortBy(leq, t)
  {
    SortSorts(leq, s);
    SortSorts(leq, t);
    SameElements(s, SortBy(leq, s));
    SortedUnique(leq, SortBy(leq, s), SortBy(leq, t));
  }

  ghost predicate NoDuplicates<T>(s: seq<T>) {
    forall i, j | 0 <= i < j < |s| :: s[i] != s[j]
  }

  lemma AtMostOnce<T>(s: seq<T>, x: T)
    requires NoDuplicates(s)
    ensures multiset(s)[x] <= 1
  {
    if x in s {
      var i :| 0 <= i < |s| && s[i] == x;
      assert s == s[..i] + [x] + s[i + 1..];
      assert x !in s[..i] && x !in s[i + 1..];
    }
  }

  lemma TwiceCounted<T>(s: seq<T>, i: nat, j: nat)
    requires i < j < |s| && s[i] == s[j]
    ensures multiset(s)[s[i]] >= 2
  {
    assert s == s[..j] + s[j..];
    assert s[..j][i] == s[i] && s[j..][0] == s[j];
    assert s[i] in multiset(s[..j]) && s[i] in multiset(s[j..]);
  }

  lemma SameDistinctness<T>(s: seq<T>, t: seq<T>)
    requires NoDuplicates(s) && multiset(s) == multiset(t)
    ensures NoDuplicates(t)
  {
    forall i, j | 0 <= i < j < |t| ensures t[i] != t[j] {
      AtMostOnce(s, t[i]);
      if t[i] == t[j] {
        TwiceCounted(t, i, j);
      }
    }
  }

  lemma Removed<T>(s: seq<T>, i: nat) returns (rest: seq<T>)
    requires i < |s| && NoDuplicates(s)
    ensures rest == s[..i] + s[i + 1..] && NoDuplicates(rest)
    ensures multiset(s) == multiset(rest) + multiset{s[i]}
    ensures forall x :: x in rest <==> x in s && x != s[i]
  {
    rest := s[..i] + s[i + 1..];
    assert s == s[..i] + [s[i]] + s[i + 1..];
    assert s[i] !in s[..i] && s[i] !in s[i + 1..];
    forall x ensures x in rest <==> x in s && x != s[i] {
      assert x in s <==> x in s[..i] || x == s[i] || x in s[i + 1..];
    }
  }

  lemma Inhabited<T>(s: seq<T>)
    ensures s == [] || exists x :: x in s
  {
    if s != [] {
      assert s[0] in s;
    }
  }

  /** Duplicate-free sequences of the same elements are permutations of each other. */
  lemma {:induction false} SameMultiset<T>(s: seq<T>, t: seq<T>)
    requires NoDuplicates(s) && NoDuplicates(t) && forall x :: x in s <==> x in t
    ensures multiset(s) == multiset(t)
    decreases |s|
  {
    if s == [] {
      Inhabited(t);
    } else {
      assert s[0] in t;
      var j :| 0 <= j < |t| && t[j] == s[0];
      var front := Removed(s, 0);
      var rest := Removed(t, j);
      SameMultiset(front, rest);
    }
  }

  lemma StrOrder()
    ensures Total(StrLeq) && Transitive(StrLeq)
    ensures forall s: seq<string> :: Separates(StrLeq, s)
  {
    forall x: string, y: string ensures (StrLeq(x, y) || StrLeq(y, x)) && (StrLeq(x, y) && StrLeq(y, x) ==> x == y) {
      StrLeqTotal(x, y);
    }
    forall x: string, y: string, z: string | StrLeq(x, y) && StrLeq(y, z) ensures StrLeq(x, z) {
      StrLeqTransitive(x, y, z);
    }
  }
}
