// When the names the allocator hands out are distinct.
module ParameterNames {
  import opened Json
  import opened Text
  import opened Skeleton

  /** How often a stem was used before position i. */
  ghost function Before(stems: seq<string>, i: nat): nat
    requires i < |stems|
  {
    multiset(stems[..i])[stems[i]]
  }

  ghost function NameAt(stems: seq<string>, i: nat): string
    requires i < |stems|
  {
    SlotName(stems[i], Before(stems, i))
  }

  ghost predicate NamesDistinct(stems: seq<string>) {
    forall i, j :: 0 <= i < j < |stems| ==> NameAt(stems, i) != NameAt(stems, j)
  }

  /** Some used stem is another used stem plus a suffix the latter really got. */
  ghost predicate Clash(stems: seq<string>) {
    exists s, k: nat :: ClashAt(stems, s, k)
  }

  ghost predicate ClashAt(stems: seq<string>, s: string, k: nat) {
    2 <= k <= multiset(stems)[s] && Suffixed(s, k) in stems
  }

  lemma BeforeGrows(stems: seq<string>, i: nat, j: nat)
    requires i < j < |stems| && stems[i] == stems[j]
    ensures Before(stems, i) < Before(stems, j)
  {
    assert stems[..j] == stems[..i] + [stems[i]] + stems[i + 1..j];
  }

  lemma BeforeBound(stems: seq<string>, i: nat)
    requires i < |stems|
    ensures Before(stems, i) < multiset(stems)[stems[i]]
  {
    assert stems == stems[..i] + [stems[i]] + stems[i + 1..];
  }

  // The occurrence of s that has exactly k predecessors.
  lemma {:induction false} Occurrence(stems: seq<string>, s: string, k: nat) returns (i: nat)
    requires k < multiset(stems)[s]
    ensures i < |stems| && stems[i] == s && Before(stems, i) == k
    decreases |stems|
  {
    var n := |stems| - 1;
    var init := stems[..n];
    assert stems == init + [stems[n]];
    if k < multiset(init)[s] {
      i := Occurrence(init, s, k);
      assert stems[..i] == init[..i];
    } else {
      i := n;
    }
  }

  // Names are distinct exactly when no stem clashes with a suffixed one.
  lemma NamesDistinctIff(stems: seq<string>)
    ensures NamesDistinct(stems) <==> !Clash(stems)
  {
    if Clash(stems) {
      var s, k: nat :| ClashAt(stems, s, k);
      var t := Suffixed(s, k);
      var i := Occurrence(stems, s, k - 1);
      var j := Occurrence(stems, t, 0);
      assert |t| > |s|;
      assert NameAt(stems, i) == t == NameAt(stems, j);
    } else {
      forall i, j | 0 <= i < j < |stems|
        ensures NameAt(stems, i) != NameAt(stems, j)
      {
        NoClashNoDuplicate(stems, i, j);
      }
    }
  }

  lemma NoClashNoDuplicate(stems: seq<string>, i: nat, j: nat)
    requires i < j < |stems| && !Clash(stems)
    ensures NameAt(stems, i) != NameAt(stems, j)
  {
    var a, b := Before(stems, i), Before(stems, j);
    if NameAt(stems, i) == NameAt(stems, j) {
      BeforeBound(stems, i);
      BeforeBound(stems, j);
      if a > 0 && b > 0 {
        SuffixedInjective(stems[i], a + 1, stems[j], b + 1);
      }
      if stems[i] == stems[j] {
        BeforeGrows(stems, i, j);
      } else if a > 0 {
        assert ClashAt(stems, stems[i], a + 1);
      } else {
        assert ClashAt(stems, stems[j], b + 1);
      }
      assert false;
    }
  }

  // ------------------------------------------------ names of a whole walk

  ghost function Stems(ps: seq<Param>): (stems: seq<string>)
    ensures |stems| == |ps|
  {
    seq(|ps|, i requires 0 <= i < |ps| => BaseName(ps[i].hint))
  }

  /** The allocator's counters and names agree with the stems used so far. */
  ghost predicate WellNamed(alloc: Alloc) {
    var stems := Stems(alloc.parameters);
    Counted(alloc.used, stems) && NamedBy(alloc.parameters, stems)
  }

  lemma AllocatedWellNamed(alloc: Alloc, hint: Option<string>, slot: SlotType)
    requires WellNamed(alloc)
    ensures WellNamed(Allocated(alloc, hint, slot))
  {
    var stem, was := BaseName(hint), Stems(alloc.parameters);
    var next := AllocatedAs(alloc, stem, hint, slot);
    assert Stems(next.parameters) == was + [stem];
    AllocatedAsNamed(alloc, was, stem, hint, slot);
  }

  ghost predicate Counted(used: map<string, nat>, stems: seq<string>) {
    forall s :: Seen(used, s) == multiset(stems)[s]
  }

  ghost predicate NamedBy(ps: seq<Param>, stems: seq<string>) {
    |ps| == |stems| && forall i :: 0 <= i < |stems| ==> ps[i].name == NameAt(stems, i)
  }

  lemma AllocatedAsNamed(alloc: Alloc, was: seq<string>, stem: string, hint: Option<string>, slot: SlotType)
    requires Counted(alloc.used, was) && NamedBy(alloc.parameters, was)
    ensures var next := AllocatedAs(alloc, stem, hint, slot); Counted(next.used, was + [stem]) && NamedBy(next.parameters, was + [stem])
  {
    NamesAtSnoc(was, stem);
  }

  // One more stem: earlier names stay, and the new one counts what came before.
  lemma NamesAtSnoc(was: seq<string>, stem: string)
    ensures forall i :: 0 <= i < |was| ==> NameAt(was + [stem], i) == NameAt(was, i)
    ensures NameAt(was + [stem], |was|) == SlotName(stem, multiset(was)[stem])
  {
    var now := was + [stem];
    assert now[..|was|] == was;
    forall i | 0 <= i < |was| ensures NameAt(now, i) == NameAt(was, i) {
      assert now[..i] == was[..i];
    }
  }

  lemma {:induction false} WalkWellNamed(node: Json, alloc: Alloc, hint: Option<string>)
    requires WellNamed(alloc)
    ensures var r := Walk(node, alloc, hint); r.Some? ==> WellNamed(r.value.1)
  {
    match node
    case Obj(fields) => WalkFieldsWellNamed(fields, alloc, LocalHint(fields, hint));
    case Arr(items) => WalkItemsWellNamed(items, alloc, hint);
    case _ =>
  }

  lemma {:induction false} WalkItemsWellNamed(items: Items, alloc: Alloc, hint: Option<string>)
    requires WellNamed(alloc)
    ensures var r := WalkItems(items, alloc, hint); r.Some? ==> WellNamed(r.value.1)
  {
    if items.Item? {
      WalkWellNamed(items.head, alloc, hint);
      var h := Walk(items.head, alloc, hint);
      if h.Some? {
        WalkItemsWellNamed(items.tail, h.value.1, hint);
      }
    }
  }

  lemma {:induction false} WalkFieldsWellNamed(fields: Fields, alloc: Alloc, local: Option<string>)
    requires WellNamed(alloc)
    ensures var r := WalkFields(fields, alloc, local); r.Some? ==> WellNamed(r.value.1)
  {
    match fields
    case NoFields =>
    case Field(key, value, rest) =>
      if Omitted(key, value) {
        WalkFieldsWellNamed(rest, alloc, local);
      } else {
        if LiteralKey(key) {
          var slot := ParamTypeOf(value);
          if slot.Some? {
            AllocatedWellNamed(alloc, SlotHint(key, local), slot.value);
          }
        } else {
          WalkWellNamed(value, alloc, local);
        }
        var h := WalkValue(key, value, alloc, local);
        if h.Some? {
          WalkFieldsWellNamed(rest, h.value.1, local);
        }
      }
  }

  ghost predicate DistinctParams(ps: seq<Param>) {
    forall i, j :: 0 <= i < j < |ps| ==> ps[i].name != ps[j].name
  }

  // The parameter names of a recorded shape are distinct exactly when the
  // stems it used do not clash.
  lemma ShapeNamesDistinctIff(query: Json)
    requires Skeletonize(query).Some?
    ensures var ps := Skeletonize(query).value.parameters;
            DistinctParams(ps) <==> !Clash(Stems(ps))
  {
    var ps := Skeletonize(query).value.parameters;
    WalkWellNamed(query, EmptyAlloc, None);
    NamesDistinctIff(Stems(ps));
  }

  // ------------------------------------------------------- case folding

  function Lower(c: char): char {
    if 'A' <= c <= 'Z' then (c as int + 32) as char else c
  }

  /** `casefold` on an ASCII identifier. */
  function Fold(s: string): (r: string)
    ensures |r| == |s| && forall i :: 0 <= i < |s| ==> r[i] == Lower(s[i])
  {
    seq(|s|, i requires 0 <= i < |s| => Lower(s[i]))
  }

  ghost function FoldAll(ss: seq<string>): (r: seq<string>)
    ensures |r| == |ss| && forall i :: 0 <= i < |ss| ==> r[i] == Fold(ss[i])
  {
    seq(|ss|, i requires 0 <= i < |ss| => Fold(ss[i]))
  }

  /** `_unique_parameter_names` accepts the list. */
  ghost predicate FoldDistinctParams(ps: seq<Param>) {
    forall i, j :: 0 <= i < j < |ps| ==> Fold(ps[i].name) != Fold(ps[j].name)
  }

  ghost predicate CaseConsistent(stems: seq<string>) {
    forall i, j :: 0 <= i < |stems| && 0 <= j < |stems| && Fold(stems[i]) == Fold(stems[j]) ==> stems[i] == stems[j]
  }

  lemma {:induction false} FoldCount(stems: seq<string>, s: string)
    requires forall i :: 0 <= i < |stems| && Fold(stems[i]) == Fold(s) ==> stems[i] == s
    ensures multiset(FoldAll(stems))[Fold(s)] == multiset(stems)[s]
  {
    if stems != [] {
      var n := |stems| - 1;
      FoldCount(stems[..n], s);
      assert stems == stems[..n] + [stems[n]];
      assert FoldAll(stems) == FoldAll(stems[..n]) + [Fold(stems[n])];
    }
  }

  lemma FoldSuffixed(s: string, k: nat)
    ensures Fold(Suffixed(s, k)) == Suffixed(Fold(s), k)
  {
    assert Lower('_') == '_';
  }

  lemma FoldNameAt(stems: seq<string>, i: nat)
    requires i < |stems| && CaseConsistent(stems)
    ensures Fold(NameAt(stems, i)) == NameAt(FoldAll(stems), i)
  {
    FoldCount(stems[..i], stems[i]);
    assert FoldAll(stems)[..i] == FoldAll(stems[..i]);
    FoldSuffixed(stems[i], Before(stems, i) + 1);
  }

  lemma ConsistentFoldDistinctIff(alloc: Alloc)
    requires WellNamed(alloc) && CaseConsistent(Stems(alloc.parameters))
    ensures FoldDistinctParams(alloc.parameters) <==> !Clash(FoldAll(Stems(alloc.parameters)))
  {
    var ps, stems := alloc.parameters, Stems(alloc.parameters);
    forall i | 0 <= i < |ps|
      ensures Fold(ps[i].name) == NameAt(FoldAll(stems), i)
    {
      FoldNameAt(stems, i);
    }
    NamesDistinctIff(FoldAll(stems));
  }

  // Two spellings of one stem give two first uses that fold together.
  lemma SpellingsFoldTogether(alloc: Alloc, a: nat, b: nat)
    requires WellNamed(alloc) && a < |alloc.parameters| && b < |alloc.parameters|
    requires var stems := Stems(alloc.parameters); Fold(stems[a]) == Fold(stems[b]) && stems[a] != stems[b]
    ensures !FoldDistinctParams(alloc.parameters)
  {
    var ps, stems := alloc.parameters, Stems(alloc.parameters);
    var i := Occurrence(stems, stems[a], 0);
    var j := Occurrence(stems, stems[b], 0);
    assert ps[i].name == stems[a] && ps[j].name == stems[b];
    assert i != j && Fold(ps[i].name) == Fold(ps[j].name);
  }

  // A recorded shape can be drafted as a template exactly when its stems are
  // spelled consistently and do not clash once case is folded.
  lemma PromotableIff(query: Json)
    requires Skeletonize(query).Some?
    ensures var ps := Skeletonize(query).value.parameters;
            FoldDistinctParams(ps) <==> CaseConsistent(Stems(ps)) && !Clash(FoldAll(Stems(ps)))
  {
    var alloc := Walk(query, EmptyAlloc, None).value.1;
    WalkWellNamed(query, EmptyAlloc, None);
    if CaseConsistent(Stems(alloc.parameters)) {
      ConsistentFoldDistinctIff(alloc);
    } else {
      var stems := Stems(alloc.parameters);
      var a, b :| 0 <= a < |stems| && 0 <= b < |stems| && Fold(stems[a]) == Fold(stems[b]) && stems[a] != stems[b];
      SpellingsFoldTogether(alloc, a, b);
    }
  }
}
