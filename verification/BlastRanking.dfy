// What the blast-radius ranking says about all loosening changes there are, not
// only about those that survive the cut of each diff.
module BlastRanking {
  import opened Json
  import opened StableSort
  import opened TupleOrder
  import opened Paging
  import opened AccessDiff
  import opened AccessDuality
  import opened AccessReport
  import opened BlastRadius

  /** Every change of the baseline, or of one principal, before any cut. */
  ghost function ChangesOf(q: Request, who: Option<string>): seq<Change> {
    AllChanges(q.active, q.candidate, who, q.fields)
  }

  function CutOf(q: Request, who: Option<string>): nat {
    if who.None? then BASELINE_CHANGES else q.perPrincipal
  }

  ghost function ByFullRisk(q: Request): string -> seq<Risk> {
    p => Risks(Some(p), ChangesOf(q, Some(p)))
  }

  /** The list that would be ranked if no diff were cut. */
  ghost function FullRisks(q: Request, page: seq<string>): seq<Risk> {
    Risks(None, ChangesOf(q, None)) + FlatMap(page, ByFullRisk(q))
  }

  lemma InFullRisks(q: Request, page: seq<string>, x: Risk)
    ensures x in FullRisks(q, page) <==>
            && x.change.direction.Loosening? && x.change in ChangesOf(q, x.principal)
            && (x.principal.Some? ==> x.principal.value in page)
  {
    RisksMembers(None, ChangesOf(q, None), x);
    InFlatMap(page, ByFullRisk(q), x);
    forall p ensures x in ByFullRisk(q)(p) <==>
                     x.principal == Some(p) && x.change in ChangesOf(q, Some(p)) && x.change.direction.Loosening? {
      RisksMembers(Some(p), ChangesOf(q, Some(p)), x);
    }
  }

  // ------------------------------------------------- what one cut keeps

  lemma {:induction false} RisksCount(who: Option<string>, s: seq<Change>)
    ensures |Risks(who, s)| == CountOf(s, Loosening)
  {
    if s != [] {
      RisksCount(who, s[..|s| - 1]);
    }
  }

  lemma {:induction false} RisksConcat(who: Option<string>, s: seq<Change>, t: seq<Change>)
    ensures Risks(who, s + t) == Risks(who, s) + Risks(who, t)
  {
    if t == [] {
      assert s + t == s;
    } else {
      assert (s + t)[..|s + t| - 1] == s + t[..|t| - 1];
      RisksConcat(who, s, t[..|t| - 1]);
    }
  }

  lemma {:induction false} RisksPermute(who: Option<string>, s: seq<Change>, t: seq<Change>)
    requires multiset(s) == multiset(t)
    ensures multiset(Risks(who, s)) == multiset(Risks(who, t))
    decreases |s|
  {
    if s == [] {
      PermutationOfNone(t);
    } else {
      var k := TakeOut(s, t);
      var c, d := t[..k], t[k + 1..];
      RisksPermute(who, s[..|s| - 1], c + d);
      RisksConcat(who, c, d);
      RisksConcat(who, c + [t[k]], d);
      RisksConcat(who, c, [t[k]]);
      RisksConcat(who, s[..|s| - 1], [t[k]]);
      assert s == s[..|s| - 1] + [t[k]];
    }
  }

  // The cut of one diff keeps all of its loosening changes exactly when there
  // are no more of them than the cut admits.
  lemma CutKeepsRisksIff(who: Option<string>, all: seq<Change>, max: nat)
    ensures multiset(Risks(who, Kept(all, max))) <= multiset(Risks(who, all))
    ensures multiset(Risks(who, Kept(all, max))) == multiset(Risks(who, all)) <==> CountOf(all, Loosening) <= max
  {
    var kept, dropped := Kept(all, max), Dropped(all, max);
    KeptAndDropped(all, max);
    RisksConcat(who, kept, dropped);
    RisksPermute(who, kept + dropped, all);
    LooseningCountSurvives(all, max);
    RisksCount(who, kept);
    RisksCount(who, all);
    PartOfSum(multiset(Risks(who, kept)), multiset(Risks(who, dropped)), multiset(Risks(who, all)));
    assert |multiset(Risks(who, kept))| == |Risks(who, kept)| && |multiset(Risks(who, all))| == |Risks(who, all)|;
  }

  lemma PartOfSum<T>(a: multiset<T>, b: multiset<T>, c: multiset<T>)
    requires c == a + b
    ensures a <= c && (a == c <==> |a| == |c|)
  {
    assert |c| == |a| + |b|;
    if |b| == 0 {
      assert b == multiset{};
    }
  }

  // ------------------------------------------------------ a whole page

  /** The diff of the baseline, or of one principal, loses no loosening change. */
  ghost predicate Fits(q: Request, who: Option<string>) {
    CountOf(ChangesOf(q, who), Loosening) <= CutOf(q, who)
  }

  ghost predicate NothingCut(q: Request, page: seq<string>) {
    Fits(q, None) && forall p :: p in page ==> Fits(q, Some(p))
  }

  lemma SumsEqual<T>(a: multiset<T>, b: multiset<T>, c: multiset<T>, d: multiset<T>)
    requires a <= c && b <= d
    ensures a + b <= c + d && (a + b == c + d <==> a == c && b == d)
  {
    if a + b == c + d {
      forall x ensures a[x] == c[x] && b[x] == d[x] {
        assert (a + b)[x] == (c + d)[x];
        assert a[x] <= c[x] && b[x] <= d[x];
      }
    }
  }

  lemma {:induction false} FlatKeepsIff<T, U>(names: seq<T>, f: T -> seq<U>, g: T -> seq<U>, fits: set<T>)
    requires forall n :: n in names ==> multiset(f(n)) <= multiset(g(n)) && (multiset(f(n)) == multiset(g(n)) <==> n in fits)
    ensures multiset(FlatMap(names, f)) <= multiset(FlatMap(names, g))
    ensures multiset(FlatMap(names, f)) == multiset(FlatMap(names, g)) <==> forall n :: n in names ==> n in fits
  {
    if names != [] {
      var k := |names| - 1;
      FlatKeepsIff(names[..k], f, g, fits);
      SumsEqual(multiset(FlatMap(names[..k], f)), multiset(f(names[k])),
                multiset(FlatMap(names[..k], g)), multiset(g(names[k])));
      assert names == names[..k] + [names[k]];
    }
  }

  lemma PageKeepsRisksIff(q: Request, page: seq<string>)
    ensures multiset(FlatMap(page, ByRisk(q))) <= multiset(FlatMap(page, ByFullRisk(q)))
    ensures multiset(FlatMap(page, ByRisk(q))) == multiset(FlatMap(page, ByFullRisk(q))) <==>
            forall p :: p in page ==> Fits(q, Some(p))
  {
    var fits := set p | p in page && Fits(q, Some(p));
    forall p | p in page
      ensures multiset(ByRisk(q)(p)) <= multiset(ByFullRisk(q)(p))
      ensures multiset(ByRisk(q)(p)) == multiset(ByFullRisk(q)(p)) <==> p in fits
    {
      CutKeepsRisksIff(Some(p), ChangesOf(q, Some(p)), q.perPrincipal);
    }
    FlatKeepsIff(page, ByRisk(q), ByFullRisk(q), fits);
  }

  lemma BaselineKeepsRisksIff(q: Request)
    ensures multiset(Risks(None, Baseline(q).changes)) <= multiset(Risks(None, ChangesOf(q, None)))
    ensures multiset(Risks(None, Baseline(q).changes)) == multiset(Risks(None, ChangesOf(q, None))) <==> Fits(q, None)
  {
    CutKeepsRisksIff(None, ChangesOf(q, None), BASELINE_CHANGES);
  }

  // Every loosening change of the baseline and of each principal on the page
  // reaches the ranking exactly when none of the diffs has more of them than its
  // cut admits.
  lemma RanksEverythingIff(q: Request, page: seq<string>)
    ensures multiset(AllRisks(q, page)) == multiset(FullRisks(q, page)) <==> NothingCut(q, page)
  {
    BaselineKeepsRisksIff(q);
    PageKeepsRisksIff(q, page);
    SumsEqual(multiset(Risks(None, Baseline(q).changes)), multiset(FlatMap(page, ByRisk(q))),
              multiset(Risks(None, ChangesOf(q, None))), multiset(FlatMap(page, ByFullRisk(q))));
  }

  // -------------------------------------------------- the ranking itself

  ghost function PageAt(q: Request, offset: nat, size: nat): seq<string> {
    Page(Configured(q), offset, size)
  }

  lemma ReachesRanking(q: Request, page: seq<string>, x: Risk)
    requires NothingCut(q, page) && x in FullRisks(q, page)
    ensures x in AllRisks(q, page)
  {
    RanksEverythingIff(q, page);
    assert x in multiset(FullRisks(q, page));
  }

  // No omitted change has a smaller risk key than one that is shown: whatever
  // loosening change there is, in full, is shown or the list is full of changes
  // that rank no lower, and the count of omitted ones is not 0.
  lemma HighestRiskFirst(q: Request, offset: nat, size: nat, x: Risk)
    requires NothingCut(q, PageAt(q, offset, size)) && x in FullRisks(q, PageAt(q, offset, size))
    ensures var r := BlastOf(q, offset, size);
            || x in r.highest
            || (r.omitted > 0 && |r.highest| == q.risks && forall y :: y in r.highest ==> RiskLe(y, x))
  {
    var page := PageAt(q, offset, size);
    ReachesRanking(q, page, x);
    TopRisks(AllRisks(q, page), q.risks, x);
  }

  // No change of one principal displaces a baseline change of its risk class.
  lemma BaselineBeforePrincipal(q: Request, offset: nat, size: nat, x: Risk, y: Risk)
    requires NothingCut(q, PageAt(q, offset, size)) && x in FullRisks(q, PageAt(q, offset, size))
    requires x.principal.None? && y in BlastOf(q, offset, size).highest && y.principal.Some?
    requires RiskRank(x.change.category) <= RiskRank(y.change.category)
    ensures x in BlastOf(q, offset, size).highest
  {
    HighestRiskFirst(q, offset, size, x);
    BaselineKeyFirst(x, y);
  }

  lemma BaselineKeyFirst(x: Risk, y: Risk)
    requires x.principal.None? && y.principal.Some? && RiskRank(x.change.category) <= RiskRank(y.change.category)
    ensures !RiskLe(y, x)
  {
    if RiskLe(y, x) {
      LeadingRank(RiskKey(y), RiskKey(x));
      LeadingRank(RiskKey(y)[1..], RiskKey(x)[1..]);
    }
  }

  /** Row filters and purpose gates first; guardrails, then join groups last. */
  predicate MoreSevere(a: Category, b: Category) {
    || (a in {MandatoryFilter, PurposeAccess} && b !in {MandatoryFilter, PurposeAccess})
    || (a !in {Guardrail, JoinGroup} && b in {Guardrail, JoinGroup})
    || (a == Guardrail && b == JoinGroup)
  }

  // No change displaces one of a more severe category, whoever it affects.
  lemma SevereFirst(q: Request, offset: nat, size: nat, x: Risk, y: Risk)
    requires NothingCut(q, PageAt(q, offset, size)) && x in FullRisks(q, PageAt(q, offset, size))
    requires y in BlastOf(q, offset, size).highest && MoreSevere(x.change.category, y.change.category)
    ensures x in BlastOf(q, offset, size).highest
  {
    HighestRiskFirst(q, offset, size, x);
    SevereKeyFirst(x, y);
  }

  lemma SevereKeyFirst(x: Risk, y: Risk)
    requires MoreSevere(x.change.category, y.change.category)
    ensures RiskLe(x, y) && !RiskLe(y, x)
  {
    KeyLeTotal(RiskKey(x), RiskKey(y));
    if RiskLe(y, x) {
      LeadingRank(RiskKey(y), RiskKey(x));
    }
  }
}
