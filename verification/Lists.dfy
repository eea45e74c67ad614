/** Filtering sequences, and what a filtered list keeps. */
module Lists {

  function Filter<T>(p: T -> bool, s: seq<T>): (r: seq<T>)
    ensures forall x :: x in r ==> x in s && p(x)
    ensures forall x :: x in s && p(x) ==> x in r
    ensures |r| <= |s|
  {
    if s == [] then [] else
    var rest := Filter(p, s[1..]);
    if p(s[0]) then [s[0]] + rest else rest
  }

  lemma {:induction false} FilterAppend<T>(p: T -> bool, a: seq<T>, b: seq<T>)
    ensures Filter(p, a + b) == Filter(p, a) + Filter(p, b)
  {
    if a == [] {
      assert a + b == b;
    } else {
      assert (a + b)[1..] == a[1..] + b;
      FilterAppend(p, a[1..], b);
    }
  }

  lemma {:induction false} FilterNone<T>(p: T -> bool, s: seq<T>)
    requires forall x :: x in s ==> !p(x)
    ensures Filter(p, s) == []
  {
    if s != [] {
      FilterNone(p, s[1..]);
    }
  }

  // Two predicates that agree on a list filter it alike.
  lemma {:induction false} FilterAgree<T>(p: T -> bool, q: T -> bool, s: seq<T>)
    requires forall x :: x in s ==> p(x) == q(x)
    ensures Filter(p, s) == Filter(q, s)
  {
    if s != [] {
      FilterAgree(p, q, s[1..]);
    }
  }

  predicate Ordered<T>(leq: (T, T) -> bool, s: seq<T>) {
    forall i, j :: 0 <= i < j < |s| ==> leq(s[i], s[j])
  }

  // A filtered list keeps the order of the list.
  lemma {:induction false} FilterOrdered<T>(p: T -> bool, leq: (T, T) -> bool, s: seq<T>)
    requires Ordered(leq, s)
    ensures Ordered(leq, Filter(p, s))
  {
    if s != [] {
      FilterOrdered(p, leq, s[1..]);
      var rest := Filter(p, s[1..]);
      forall j | 0 <= j < |rest| ensures leq(s[0], rest[j]) {
        assert rest[j] in s[1..];
      }
    }
  }

  function IndexOf<T(==)>(s: seq<T>, x: T): (i: nat)
    requires x in s
    ensures i < |s| && s[i] == x && x !in s[..i]
  {
    if s[0] == x then 0 else 1 + IndexOf(s[1..], x)
  }

  predicate NoRepeats<T(==)>(s: seq<T>) {
    forall i, j :: 0 <= i < j < |s| ==> s[i] != s[j]
  }

  predicate Distinct<T, K(==)>(key: T -> K, s: seq<T>) {
    forall i, j :: 0 <= i < j < |s| ==> key(s[i]) != key(s[j])
  }

  lemma FilterDistinct<T, K>(p: T -> bool, key: T -> K, s: seq<T>)
    requires Distinct(key, s)
    ensures Distinct(key, Filter(p, s))
  {
    FilterOrdered(p, (a, b) => key(a) != key(b), s);
  }

  lemma DistinctParts<T, K>(key: T -> K, a: seq<T>, b: seq<T>)
    requires Distinct(key, a + b)
    ensures Distinct(key, a) && Distinct(key, b)
    ensures forall x, y :: x in a && y in b ==> key(x) != key(y)
  {
    assert forall i :: 0 <= i < |a| ==> (a + b)[i] == a[i];
    assert forall i :: 0 <= i < |b| ==> (a + b)[|a| + i] == b[i];
  }

  lemma DistinctSame<T, K>(key: T -> K, s: seq<T>, x: T, y: T)
    requires Distinct(key, s) && x in s && y in s && key(x) == key(y)
    ensures x == y
  {
  }

  lemma ProperSubsetSmaller<T>(a: set<T>, b: set<T>)
    requires a < b
    ensures |a| < |b|
  {
    var rest := b - a;
    assert b == a + rest && rest != {};
  }

  lemma AnyOf<T>(s: set<T>) returns (x: T)
    requires s != {}
    ensures x in s
  {
    x :| x in s;
  }
}
