// Python's order on sort keys that are tuples of numbers and strings.
module TupleOrder {
  import opened StableSort

  datatype Part = Rank(n: nat) | Name(s: string)

  predicate PartLe(a: Part, b: Part) {
    match (a, b)
    case (Rank(m), Rank(n)) => m <= n
    case (Name(s), Name(t)) => NameLe(s, t)
    case (Rank(_), Name(_)) => true
    case (Name(_), Rank(_)) => false
  }

  /** Lexicographic: the first part that differs decides. */
  predicate KeyLe(a: seq<Part>, b: seq<Part>) {
    a == [] || (b != [] && if a[0] == b[0] then KeyLe(a[1..], b[1..]) else PartLe(a[0], b[0]))
  }

  lemma PartLeOrder(a: Part, b: Part, c: Part)
    ensures PartLe(a, b) || PartLe(b, a)
    ensures PartLe(a, b) && PartLe(b, a) ==> a == b
    ensures PartLe(a, b) && PartLe(b, c) ==> PartLe(a, c)
  {
    if a.Name? && b.Name? {
      NameLeTotal(a.s, b.s);
      if PartLe(a, b) && PartLe(b, a) {
        NameLeAntisymmetric(a.s, b.s);
      }
      if c.Name? && PartLe(a, b) && PartLe(b, c) {
        NameLeTransitive(a.s, b.s, c.s);
      }
    }
  }

  lemma {:induction false} KeyLeTotal(a: seq<Part>, b: seq<Part>)
    ensures KeyLe(a, b) || KeyLe(b, a)
  {
    if a != [] && b != [] {
      PartLeOrder(a[0], b[0], b[0]);
      KeyLeTotal(a[1..], b[1..]);
    }
  }

  lemma {:induction false} KeyLeTransitive(a: seq<Part>, b: seq<Part>, c: seq<Part>)
    requires KeyLe(a, b) && KeyLe(b, c)
    ensures KeyLe(a, c)
  {
    if a != [] {
      PartLeOrder(a[0], b[0], c[0]);
      PartLeOrder(b[0], c[0], c[0]);
      if a[0] == b[0] == c[0] {
        KeyLeTransitive(a[1..], b[1..], c[1..]);
      }
    }
  }

  // Sorting by any key function sorts by a total preorder.
  lemma ByKeyIsTotalPreorder<T(!new)>(key: T -> seq<Part>, le: (T, T) -> bool)
    requires forall x, y :: le(x, y) == KeyLe(key(x), key(y))
    ensures TotalPreorder(le)
  {
    forall x, y ensures le(x, y) || le(y, x) {
      KeyLeTotal(key(x), key(y));
    }
    forall x, y, z | le(x, y) && le(y, z) ensures le(x, z) {
      KeyLeTransitive(key(x), key(y), key(z));
    }
  }

  // The leading number decides first.
  lemma LeadingRank(a: seq<Part>, b: seq<Part>)
    requires a != [] && b != [] && a[0].Rank? && b[0].Rank? && KeyLe(a, b)
    ensures a[0].n <= b[0].n
  {
  }
}
