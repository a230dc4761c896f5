/** Sequences without duplicates. */
module Sequences {

  predicate NoDup<T(==)>(s: seq<T>) {
    forall i, j :: 0 <= i < j < |s| ==> s[i] != s[j]
  }

  function IndexOf<T(==)>(s: seq<T>, x: T): (k: nat)
    requires x in s
    ensures k < |s| && s[k] == x
  {
    if s[0] == x then 0 else 1 + IndexOf(s[1..], x)
  }

  lemma SplicedMembers<T>(s: seq<T>, pos: nat, x: T)
    requires pos <= |s| && x !in s && NoDup(s)
    ensures NoDup(s[..pos] + [x] + s[pos..])
    ensures forall y :: y in s[..pos] + [x] + s[pos..] <==> y == x || y in s
  {
    var t := s[..pos] + [x] + s[pos..];
    forall y
      ensures y in t <==> y == x || y in s
    {
      if y in s {
        var k := IndexOf(s, y);
        assert t[if k < pos then k else k + 1] == y;
      }
      assert t[pos] == x;
    }
  }

  lemma WithoutMembers<T>(s: seq<T>, k: nat)
    requires k < |s| && NoDup(s)
    ensures NoDup(s[..k] + s[k + 1..])
    ensures forall y :: y in s[..k] + s[k + 1..] <==> y != s[k] && y in s
  {
    var t := s[..k] + s[k + 1..];
    forall y
      ensures y in t <==> y != s[k] && y in s
    {
      if y in s && y != s[k] {
        var i := IndexOf(s, y);
        assert t[if i < k then i else i - 1] == y;
      }
    }
  }

  /** The first occurrence of x taken out. */
  function Without<T(==)>(s: seq<T>, x: T): (r: seq<T>)
    ensures |r| <= |s|
  {
    if s == [] then [] else if s[0] == x then s[1..] else [s[0]] + Without(s[1..], x)
  }

  lemma {:induction false} WithoutOne<T>(s: seq<T>, x: T)
    requires NoDup(s)
    ensures NoDup(Without(s, x))
    ensures forall y :: y in Without(s, x) <==> y in s && y != x
  {
    if s != [] {
      assert s == [s[0]] + s[1..];
      assert NoDup(s[1..]);
      WithoutOne(s[1..], x);
      assert s[0] !in s[1..];
    }
  }

  lemma {:induction false} WithoutAbsent<T>(s: seq<T>, x: T)
    requires x !in s
    ensures Without(s, x) == s
  {
    if s != [] {
      WithoutAbsent(s[1..], x);
    }
  }
}
