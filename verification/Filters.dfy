/** The elements of a list that pass a test, in order. */
module Filters {

  function Filter<T>(s: seq<T>, p: T -> bool): seq<T> {
    if s == [] then [] else (if p(s[0]) then [s[0]] else []) + Filter(s[1..], p)
  }

  lemma {:induction false} FilterAppend<T>(a: seq<T>, b: seq<T>, p: T -> bool)
    ensures Filter(a + b, p) == Filter(a, p) + Filter(b, p)
  {
    if a == [] {
      assert a + b == b;
    } else {
      assert (a + b)[1..] == a[1..] + b;
      FilterAppend(a[1..], b, p);
      Associative(if p(a[0]) then [a[0]] else [], Filter(a[1..], p), Filter(b, p));
    }
  }

  lemma Associative<T>(a: seq<T>, b: seq<T>, c: seq<T>)
    ensures a + (b + c) == (a + b) + c
  {
  }

  lemma {:induction false} FilterMembers<T>(s: seq<T>, p: T -> bool)
    ensures forall x :: x in Filter(s, p) <==> x in s && p(x)
  {
    if s != [] {
      FilterMembers(s[1..], p);
      assert s == [s[0]] + s[1..];
    }
  }

  /** Every element passes either the test or its opposite. */
  lemma {:induction false} FilterSplits<T>(s: seq<T>, p: T -> bool, q: T -> bool)
    requires forall x :: x in s ==> q(x) == !p(x)
    ensures multiset(Filter(s, p)) + multiset(Filter(s, q)) == multiset(s)
  {
    if s != [] {
      FilterSplits(s[1..], p, q);
      assert s == [s[0]] + s[1..];
    }
  }

  /** The first element of one order found in another. */
  lemma FindHead<T>(s: seq<T>, s': seq<T>) returns (before: seq<T>, after: seq<T>)
    requires s != [] && multiset(s) == multiset(s')
    ensures s' == before + ([s[0]] + after)
    ensures multiset(s[1..]) == multiset(before + after)
  {
    var x := s[0];
    assert s == [x] + s[1..];
    assert x in multiset(s');
    var i :| 0 <= i < |s'| && s'[i] == x;
    before, after := s'[..i], s'[i + 1..];
    SplitAt(s', i);
    Cancel(x, multiset(s[1..]), multiset(before), multiset(after));
  }

  lemma SplitAt<T>(s: seq<T>, i: nat)
    requires i < |s|
    ensures s == s[..i] + ([s[i]] + s[i + 1..])
    ensures multiset(s) == multiset(s[..i]) + (multiset{s[i]} + multiset(s[i + 1..]))
    ensures multiset(s[..i] + s[i + 1..]) == multiset(s[..i]) + multiset(s[i + 1..])
  {
    assert s == s[..i] + ([s[i]] + s[i + 1..]);
  }

  lemma Cancel<T>(x: T, m: multiset<T>, a: multiset<T>, b: multiset<T>)
    requires multiset{x} + m == a + (multiset{x} + b)
    ensures m == a + b
  {
    assert m == (multiset{x} + m) - multiset{x};
    assert a + b == (a + (multiset{x} + b)) - multiset{x};
  }

  lemma {:induction false} FilterPermutes<T>(s: seq<T>, s': seq<T>, p: T -> bool)
    requires multiset(s) == multiset(s')
    ensures multiset(Filter(s, p)) == multiset(Filter(s', p))
    decreases |s|
  {
    if s == [] {
      assert |s'| == |multiset(s')| == 0;
    } else {
      var before, after := FindHead(s, s');
      FilterPermutes(s[1..], before + after, p);
      FilterAppend(before, [s[0]] + after, p);
      FilterAppend([s[0]], after, p);
      FilterAppend(before, after, p);
      assert ([s[0]] + after)[1..] == after;
    }
  }
}
