// Python's `sorted`/`list.sort`: a stable sort under a total preorder, and the
// ascending listing of a set of names.
module StableSort {

  ghost predicate TotalPreorder<T(!new)>(le: (T, T) -> bool) {
    && (forall x, y :: le(x, y) || le(y, x))
    && (forall x, y, z :: le(x, y) && le(y, z) ==> le(x, z))
  }

  ghost predicate SortedBy<T>(s: seq<T>, le: (T, T) -> bool) {
    forall i, j :: 0 <= i < j < |s| ==> le(s[i], s[j])
  }

  /** In front of the first element it does not exceed, so ties keep their order. */
  function Insert<T>(x: T, s: seq<T>, le: (T, T) -> bool): seq<T> {
    if s == [] || le(x, s[0]) then [x] + s else [s[0]] + Insert(x, s[1..], le)
  }

  function Sort<T>(s: seq<T>, le: (T, T) -> bool): seq<T> {
    if s == [] then [] else Insert(s[0], Sort(s[1..], le), le)
  }

  lemma {:induction false} InsertPermutes<T>(x: T, s: seq<T>, le: (T, T) -> bool)
    ensures multiset(Insert(x, s, le)) == multiset{x} + multiset(s)
    ensures |Insert(x, s, le)| == |s| + 1
  {
    if s != [] && !le(x, s[0]) {
      InsertPermutes(x, s[1..], le);
      assert s == [s[0]] + s[1..];
    }
  }

  lemma {:induction false} InsertSorted<T(!new)>(x: T, s: seq<T>, le: (T, T) -> bool)
    requires TotalPreorder(le) && SortedBy(s, le)
    ensures SortedBy(Insert(x, s, le), le)
  {
    if s != [] && !le(x, s[0]) {
      InsertSorted(x, s[1..], le);
      InsertPermutes(x, s[1..], le);
      var rest := Insert(x, s[1..], le);
      forall j | 0 <= j < |rest|
        ensures le(s[0], rest[j])
      {
        assert rest[j] in multiset(rest);
        assert rest[j] == x || rest[j] in s[1..];
      }
    }
  }

  // Sorting permutes.
  lemma {:induction false} SortPermutes<T>(s: seq<T>, le: (T, T) -> bool)
    ensures multiset(Sort(s, le)) == multiset(s) && |Sort(s, le)| == |s|
  {
    if s != [] {
      SortPermutes(s[1..], le);
      InsertPermutes(s[0], Sort(s[1..], le), le);
      assert s == [s[0]] + s[1..];
    }
  }

  // Sorting sorts.
  lemma {:induction false} SortSorts<T(!new)>(s: seq<T>, le: (T, T) -> bool)
    requires TotalPreorder(le)
    ensures SortedBy(Sort(s, le), le)
  {
    if s != [] {
      SortSorts(s[1..], le);
      InsertSorted(s[0], Sort(s[1..], le), le);
    }
  }

  // The first k of a sorted list: nothing dropped precedes anything kept.
  lemma TopK<T(!new)>(s: seq<T>, le: (T, T) -> bool, k: nat)
    requires TotalPreorder(le) && k <= |s|
    ensures var sorted := Sort(s, le);
            |sorted| == |s| && forall x, y :: x in sorted[..k] && y in sorted[k..] ==> le(x, y)
  {
    SortSorts(s, le);
    SortPermutes(s, le);
  }

  lemma WithoutIndex<T>(b: seq<T>, k: nat)
    requires k < |b|
    ensures b == b[..k] + [b[k]] + b[k + 1..]
    ensures multiset(b[..k] + b[k + 1..]) == multiset(b) - multiset{b[k]}
  {
    var c, d := b[..k], b[k + 1..];
    assert b == c + [b[k]] + d;
    assert multiset(b) == multiset(c) + multiset{b[k]} + multiset(d);
  }

  // Taking the last element of one list out of a permutation of it.
  lemma TakeOut<T>(a: seq<T>, b: seq<T>) returns (k: nat)
    requires a != [] && multiset(a) == multiset(b)
    ensures k < |b| && b[k] == a[|a| - 1]
    ensures b == b[..k] + [b[k]] + b[k + 1..]
    ensures multiset(b[..k] + b[k + 1..]) == multiset(a[..|a| - 1])
  {
    var n := |a| - 1;
    assert a[n] in multiset(b);
    k :| 0 <= k < |b| && b[k] == a[n];
    WithoutIndex(b, k);
    WithoutIndex(a, n);
    assert a[..n] + a[n + 1..] == a[..n];
  }

  lemma PermutationOfNone<T>(b: seq<T>)
    requires multiset(b) == multiset{}
    ensures b == []
  {
    assert |multiset(b)| == 0;
  }

  // -------------------------------------------------- names in ascending order

  /** Lexicographic order on strings. */
  predicate NameLe(a: string, b: string) {
    a == [] || (b != [] && (a[0] < b[0] || (a[0] == b[0] && NameLe(a[1..], b[1..]))))
  }

  // One name is a front part of the other, or has the smaller character where
  // they first differ.
  lemma {:induction false} NameLeMeans(a: string, b: string)
    ensures NameLe(a, b) <==> a <= b || Precedes(a, b)
  {
    if a != [] && b != [] {
      if a[0] == b[0] {
        NameLeMeans(a[1..], b[1..]);
        PrecedesStep(a, b);
        PrefixStep(a, b);
      } else if a[0] < b[0] {
        assert Below(a, b, 0);
      }
    }
  }

  ghost predicate Precedes(a: string, b: string) {
    exists i: nat :: Below(a, b, i)
  }

  lemma PrefixStep(a: string, b: string)
    requires a != [] && b != [] && a[0] == b[0]
    ensures a <= b <==> a[1..] <= b[1..]
  {
    assert a == [a[0]] + a[1..] && b == [b[0]] + b[1..];
  }

  lemma PrecedesStep(a: string, b: string)
    requires a != [] && b != [] && a[0] == b[0]
    ensures Precedes(a, b) <==> Precedes(a[1..], b[1..])
  {
    if Precedes(a[1..], b[1..]) {
      var i: nat :| Below(a[1..], b[1..], i);
      BelowStep(a, b, i);
    }
    if Precedes(a, b) {
      var i: nat :| Below(a, b, i);
      BelowStep(a, b, i - 1);
    }
  }

  ghost predicate Below(a: string, b: string, i: nat) {
    i < |a| && i < |b| && a[i] < b[i] && forall j :: 0 <= j < i ==> a[j] == b[j]
  }

  lemma BelowStep(a: string, b: string, i: nat)
    requires a != [] && b != [] && a[0] == b[0]
    ensures Below(a, b, i + 1) <==> Below(a[1..], b[1..], i)
  {
    var x, y := a[1..], b[1..];
    if Below(x, y, i) {
      forall j | 0 <= j < i + 1 ensures a[j] == b[j] {
        if j > 0 {
          assert a[j] == x[j - 1] && b[j] == y[j - 1];
        }
      }
    }
  }

  lemma {:induction false} NameLeTotal(a: string, b: string)
    ensures NameLe(a, b) || NameLe(b, a)
  {
    if a != [] && b != [] {
      NameLeTotal(a[1..], b[1..]);
    }
  }

  lemma {:induction false} NameLeTransitive(a: string, b: string, c: string)
    requires NameLe(a, b) && NameLe(b, c)
    ensures NameLe(a, c)
  {
    if a != [] && a[0] == b[0] == c[0] {
      NameLeTransitive(a[1..], b[1..], c[1..]);
    }
  }

  lemma {:induction false} NameLeAntisymmetric(a: string, b: string)
    requires NameLe(a, b) && NameLe(b, a)
    ensures a == b
  {
    if a != [] {
      NameLeAntisymmetric(a[1..], b[1..]);
      assert a == [a[0]] + a[1..] && b == [b[0]] + b[1..];
    }
  }

  lemma NameLeIsTotalPreorder()
    ensures TotalPreorder(NameLe)
  {
    forall a, b ensures NameLe(a, b) || NameLe(b, a) {
      NameLeTotal(a, b);
    }
    forall a, b, c | NameLe(a, b) && NameLe(b, c) ensures NameLe(a, c) {
      NameLeTransitive(a, b, c);
    }
  }

  lemma SubsetSmaller<T>(a: set<T>, b: set<T>)
    requires a <= b
    ensures |a| <= |b|
  {
    assert b == a + (b - a);
  }

  ghost predicate NoDuplicates<T>(s: seq<T>) {
    forall i, j :: 0 <= i < j < |s| ==> s[i] != s[j]
  }

  ghost function Pick<T>(names: set<T>): (x: T)
    requires names != {}
    ensures x in names
  {
    var x :| x in names; x
  }

  /** `sorted(names)` for a set of names. */
  ghost function Listing(names: set<string>): seq<string> {
    if names == {} then [] else Insert(Pick(names), Listing(names - {Pick(names)}), NameLe)
  }

  lemma InsertMembers<T>(x: T, s: seq<T>, le: (T, T) -> bool)
    ensures forall y :: y in Insert(x, s, le) <==> y == x || y in s
  {
    InsertPermutes(x, s, le);
    forall y ensures y in Insert(x, s, le) <==> y in multiset(Insert(x, s, le)) {
    }
  }

  lemma InsertNameSorted(x: string, s: seq<string>)
    requires SortedBy(s, NameLe)
    ensures SortedBy(Insert(x, s, NameLe), NameLe)
  {
    NameLeIsTotalPreorder();
    InsertSorted(x, s, NameLe);
  }

  lemma {:induction false} ListingLists(names: set<string>)
    ensures SortedBy(Listing(names), NameLe)
    ensures NoDuplicates(Listing(names))
    ensures forall x :: x in Listing(names) <==> x in names
    ensures |Listing(names)| == |names|
  {
    if names != {} {
      var x := Pick(names);
      var rest := Listing(names - {x});
      ListingLists(names - {x});
      InsertNameSorted(x, rest);
      InsertPermutes(x, rest, NameLe);
      InsertMembers(x, rest, NameLe);
      InsertFresh(x, rest, NameLe);
    }
  }

  lemma {:induction false} InsertFresh<T>(x: T, s: seq<T>, le: (T, T) -> bool)
    requires NoDuplicates(s) && x !in s
    ensures NoDuplicates(Insert(x, s, le))
  {
    if s != [] && !le(x, s[0]) {
      InsertFresh(x, s[1..], le);
      InsertPermutes(x, s[1..], le);
      var rest := Insert(x, s[1..], le);
      forall j | 0 <= j < |rest|
        ensures s[0] != rest[j]
      {
        assert rest[j] in multiset(rest);
      }
    }
  }

  // One ascending list per set: any other way to list a set in order agrees.
  lemma {:induction false} ListingUnique(s: seq<string>, t: seq<string>)
    requires SortedBy(s, NameLe) && SortedBy(t, NameLe) && NoDuplicates(s) && NoDuplicates(t)
    requires |s| == |t| && forall x :: x in s <==> x in t
    ensures s == t
  {
    if s != [] {
      assert s[0] in t && t != [] && t[0] in s;
      assert NameLe(s[0], t[0]) && NameLe(t[0], s[0]) by {
        NameLeReflexive(s[0]);
        NameLeReflexive(t[0]);
      }
      NameLeAntisymmetric(s[0], t[0]);
      forall x ensures x in s[1..] <==> x in t[1..] {
        TailMembers(s, x);
        TailMembers(t, x);
      }
      ListingUnique(s[1..], t[1..]);
      assert s == [s[0]] + s[1..] && t == [t[0]] + t[1..];
    }
  }

  lemma NameLeReflexive(a: string)
    ensures NameLe(a, a)
  {
    NameLeTotal(a, a);
  }

  lemma TailMembers<T>(s: seq<T>, x: T)
    requires s != [] && NoDuplicates(s)
    ensures x in s[1..] <==> x in s && x != s[0]
  {
    assert s == [s[0]] + s[1..];
  }

  method SortNames(names: set<string>) returns (r: seq<string>)
    ensures r == Listing(names)
  {
    r := [];
    var left := names;
    while left != {}
      invariant left <= names
      invariant SortedBy(r, NameLe) && NoDuplicates(r)
      invariant forall x :: x in r <==> x in names - left
      invariant |r| + |left| == |names|
      decreases left
    {
      var x :| x in left;
      InsertNameSorted(x, r);
      InsertPermutes(x, r, NameLe);
      InsertMembers(x, r, NameLe);
      InsertFresh(x, r, NameLe);
      r := Insert(x, r, NameLe);
      left := left - {x};
    }
    ListingLists(names);
    ListingUnique(r, Listing(names));
  }
}
