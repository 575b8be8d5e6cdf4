// Counting the elements of a list that satisfy a predicate.
module Counting {
  import opened StableSort

  function Count<T>(s: seq<T>, f: T -> bool): nat {
    if s == [] then 0 else Count(s[..|s| - 1], f) + (if f(s[|s| - 1]) then 1 else 0)
  }

  lemma CountSnoc<T>(s: seq<T>, x: T, f: T -> bool)
    ensures Count(s + [x], f) == Count(s, f) + if f(x) then 1 else 0
  {
    assert (s + [x])[..|s|] == s;
  }

  lemma {:induction false} CountConcat<T>(a: seq<T>, b: seq<T>, f: T -> bool)
    ensures Count(a + b, f) == Count(a, f) + Count(b, f)
  {
    if b == [] {
      assert a + b == a;
    } else {
      assert (a + b)[..|a + b| - 1] == a + b[..|b| - 1];
      CountConcat(a, b[..|b| - 1], f);
    }
  }

  // Counting does not depend on the order of elements.
  lemma {:induction false} CountPermutes<T>(a: seq<T>, b: seq<T>, f: T -> bool)
    requires multiset(a) == multiset(b)
    ensures Count(a, f) == Count(b, f)
    decreases |a|
  {
    if a == [] {
      PermutationOfNone(b);
    } else {
      var n := |a| - 1;
      var k := TakeOut(a, b);
      var c, d := b[..k], b[k + 1..];
      CountPermutes(a[..n], c + d, f);
      CountConcat(c + [b[k]], d, f);
      CountConcat(c, d, f);
      CountSnoc(c, b[k], f);
    }
  }

  lemma {:induction false} CountNone<T>(s: seq<T>, f: T -> bool)
    ensures Count(s, f) == 0 <==> forall x :: x in s ==> !f(x)
  {
    if s != [] {
      var n := |s| - 1;
      CountNone(s[..n], f);
      assert s == s[..n] + [s[n]];
    }
  }

  lemma {:induction false} CountAll<T>(s: seq<T>, f: T -> bool)
    ensures Count(s, f) <= |s|
    ensures Count(s, f) == |s| <==> forall x :: x in s ==> f(x)
  {
    if s != [] {
      var n := |s| - 1;
      CountAll(s[..n], f);
      assert s == s[..n] + [s[n]];
    }
  }
}
