// A severe loosening change can be cut from its own diff before the blast-radius
// ranking sees it.
module BlastGaps {
  import opened Json
  import opened PolicyModel
  import opened StableSort
  import Counting
  import opened AccessDiff
  import opened AccessDuality
  import opened AccessCompleteness
  import opened AccessEnforcement
  import opened AccessReport
  import opened AccessCoverage
  import opened BlastRadius
  import opened BlastRanking

  // ------------------------------------------- what an earlier connection hides

  lemma {:induction false} SetInSeq<T>(s: seq<T>, members: set<T>)
    requires forall x :: x in members ==> x in s
    ensures |members| <= |s|
  {
    if s == [] {
      assert members == {};
    } else {
      var n := |s| - 1;
      forall x | x in members - {s[n]} ensures x in s[..n] {
        assert s == s[..n] + [s[n]];
      }
      SetInSeq(s[..n], members - {s[n]});
      SubsetSmaller(members, members - {s[n]} + {s[n]});
    }
  }

  // For every cut: once the loosening changes of one connection fill it, no
  // loosening change of a later connection is kept, whatever its category.
  lemma LaterIsCut(all: seq<Change>, max: nat, full: set<Change>, first: string, x: Change)
    requires forall g :: g in full ==> g in all && g.direction.Loosening? && g.connection == first
    requires |full| >= max && x.direction.Loosening? && !NameLe(x.connection, first)
    ensures x !in Kept(all, max)
  {
    var kept, dropped := Kept(all, max), Dropped(all, max);
    KeptAndDropped(all, max);
    if x in kept {
      NameLeReflexive(first);
      forall g | g in full ensures g in kept {
        if g !in kept {
          assert g in multiset(kept) + multiset(dropped);
          assert g in dropped;
          CutInOrder(all, max, x, g);
        }
      }
      SetInSeq(kept, full + {x});
    }
  }

  // ------------------------------------------------ a severe change is cut

  /** For one principal tables are opened on connection `first` and a row filter is
      dropped on a later connection `second`. */
  datatype Case = Case(p: string, first: string, second: string, profile: Profile, tables: set<string>, filter: RowFilter)

  predicate Apt(k: Case) {
    k.first != k.second && NameLe(k.first, k.second) && k.profile.enabled
  }

  function TableOpened(k: Case, t: string): Change {
    AccessEntry(TableAccess, k.first, t, true)
  }

  function FilterDropped(k: Case): Change {
    Gone(MandatoryFilter, k.second, Dotted(k.filter.table, k.filter.column), FilterSource(k.filter))
  }

  predicate OpensTables(k: Case, b: Policy, a: Policy) {
    && b.enabled && b.allowedTables == {} && !b.explicitOnly
    && a == b.(deniedTables := a.deniedTables) && b.deniedTables == a.deniedTables + k.tables && a.deniedTables !! k.tables
  }

  predicate DropsFilter(k: Case, b: Policy, a: Policy) {
    && b.enabled && a.enabled
    && LastFilter(b.filters, k.filter.table, k.filter.column) == Some(k.filter)
    && LastFilter(a.filters, k.filter.table, k.filter.column) == None
  }

  /** At least as many tables are opened as the report shows changes of a
      principal; nothing changes in the baseline. */
  ghost predicate Displaces(q: Request, k: Case) {
    && Apt(k) && 1 <= q.perPrincipal <= |k.tables| && Overridden(q) == {k.p}
    && q.active.registry == q.candidate.registry == map[k.first := k.profile, k.second := k.profile]
    && OpensTables(k, Resolve(q.active.policies, k.first, Some(k.p)), Resolve(q.candidate.policies, k.first, Some(k.p)))
    && DropsFilter(k, Resolve(q.active.policies, k.second, Some(k.p)), Resolve(q.candidate.policies, k.second, Some(k.p)))
    && forall c :: Resolve(q.active.policies, c, None) == Resolve(q.candidate.policies, c, None)
  }

  lemma OneName<T, U>(n: T, f: T -> seq<U>)
    ensures FlatMap([n], f) == f(n)
  {
    assert [n][..0] == [] && FlatMap([n][..0], f) == [];
  }

  lemma SharedIs(c: string, active: Context, candidate: Context, who: Option<string>, fields: seq<string>, pb: Profile, pa: Profile)
    requires c in active.registry && c in candidate.registry && active.registry[c] == pb && candidate.registry[c] == pa
    ensures ConnectionChanges(c, active, candidate, who, fields) ==
            SharedChanges(c, pb, Resolve(active.policies, c, who), pa, Resolve(candidate.policies, c, who), fields)
  {
  }

  lemma VisibleShared(c: string, pb: Profile, b: Policy, pa: Profile, a: Policy, fields: seq<string>)
    requires Visible(pb, b) && Visible(pa, a)
    ensures SharedChanges(c, pb, b, pa, a, fields) == InnerChanges(c, pb, b, pa, a, fields)
  {
    var none := SightChange(c, true, true);
    assert none == [] && none + InnerChanges(c, pb, b, pa, a, fields) == InnerChanges(c, pb, b, pa, a, fields);
  }

  lemma FirstShared(k: Case, b: Policy, a: Policy, fields: seq<string>, ch: Change)
    requires Apt(k) && OpensTables(k, b, a)
    ensures ch in SharedChanges(k.first, k.profile, b, k.profile, a, fields) ==> ch.category.TableAccess?
    ensures forall t :: t in k.tables ==> TableOpened(k, t) in SharedChanges(k.first, k.profile, b, k.profile, a, fields)
  {
    var u := NamedTables(k.profile, b) + NamedTables(k.profile, a);
    DeniedOnly(k.first, k.profile, b, a, fields);
    VisibleShared(k.first, k.profile, b, k.profile, a, fields);
    FirstTables(k, u, b, a, ch);
  }

  lemma FirstTables(k: Case, u: set<string>, b: Policy, a: Policy, ch: Change)
    requires OpensTables(k, b, a) && b.deniedTables <= u
    ensures ch in TableChanges(k.first, u, b, a) ==> ch.category.TableAccess?
    ensures forall t :: t in k.tables ==> TableOpened(k, t) in TableChanges(k.first, u, b, a)
  {
    InListed(u, ByTable(k.first, b, a), ch);
    forall t | t in k.tables ensures TableOpened(k, t) in TableChanges(k.first, u, b, a) {
      TableEntriesExact(k.first, u, b, a, t, true);
    }
  }

  lemma SecondShared(k: Case, b: Policy, a: Policy, fields: seq<string>)
    requires Apt(k) && DropsFilter(k, b, a)
    ensures FilterDropped(k) in SharedChanges(k.second, k.profile, b, k.profile, a, fields)
  {
    FilterDiffComplete(k.second, b, a, k.filter.table, k.filter.column);
    PartsReach(k.second, k.profile, b, k.profile, a, fields, FilterDropped(k));
    VisibleShared(k.second, k.profile, b, k.profile, a, fields);
  }

  lemma FirstConnection(q: Request, k: Case, ch: Change)
    requires Displaces(q, k)
    ensures ch in ConnectionChanges(k.first, q.active, q.candidate, Some(k.p), q.fields) ==> ch.category.TableAccess?
    ensures forall t :: t in k.tables ==>
              TableOpened(k, t) in ConnectionChanges(k.first, q.active, q.candidate, Some(k.p), q.fields)
  {
    SharedIs(k.first, q.active, q.candidate, Some(k.p), q.fields, k.profile, k.profile);
    FirstShared(k, Resolve(q.active.policies, k.first, Some(k.p)), Resolve(q.candidate.policies, k.first, Some(k.p)), q.fields, ch);
  }

  lemma SecondConnection(q: Request, k: Case)
    requires Displaces(q, k)
    ensures FilterDropped(k) in ConnectionChanges(k.second, q.active, q.candidate, Some(k.p), q.fields)
  {
    SharedIs(k.second, q.active, q.candidate, Some(k.p), q.fields, k.profile, k.profile);
    SecondShared(k, Resolve(q.active.policies, k.second, Some(k.p)), Resolve(q.candidate.policies, k.second, Some(k.p)), q.fields);
  }

  lemma OtherConnection(q: Request, k: Case, c: string)
    requires Displaces(q, k)
    ensures c !in {k.first, k.second} ==> ConnectionChanges(c, q.active, q.candidate, Some(k.p), q.fields) == []
  {
  }

  lemma TablesReached(q: Request, k: Case, t: string)
    requires Displaces(q, k) && t in k.tables
    ensures TableOpened(k, t) in ChangesOf(q, Some(k.p))
  {
    FirstConnection(q, k, TableOpened(k, t));
    InAllChanges(q.active, q.candidate, Some(k.p), q.fields, TableOpened(k, t));
  }

  lemma FilterReached(q: Request, k: Case)
    requires Displaces(q, k)
    ensures FilterDropped(k) in ChangesOf(q, Some(k.p))
  {
    SecondConnection(q, k);
    InAllChanges(q.active, q.candidate, Some(k.p), q.fields, FilterDropped(k));
  }

  lemma OnFirst(q: Request, k: Case, ch: Change)
    requires Displaces(q, k) && ch in ChangesOf(q, Some(k.p)) && ch.connection != k.second
    ensures ch.category.TableAccess?
  {
    FirstConnection(q, k, ch);
    OtherConnection(q, k, ch.connection);
    InAllChanges(q.active, q.candidate, Some(k.p), q.fields, ch);
  }

  function Openings(first: string, tables: set<string>): set<Change> {
    set t | t in tables :: AccessEntry(TableAccess, first, t, true)
  }

  lemma {:induction false} OpeningsCount(first: string, tables: set<string>)
    ensures |Openings(first, tables)| == |tables|
    decreases tables
  {
    if tables == {} {
      assert Openings(first, tables) == {};
    } else {
      var t := Pick(tables);
      var x, fewer := AccessEntry(TableAccess, first, t, true), Openings(first, tables - {t});
      OpeningsCount(first, tables - {t});
      assert x !in fewer;
      forall y ensures y in Openings(first, tables) <==> y in fewer + {x} {
      }
      assert Openings(first, tables) == fewer + {x};
    }
  }

  // Nothing of the later connection survives the cut.
  lemma SecondIsCut(q: Request, k: Case, x: Change)
    requires Displaces(q, k) && x.direction.Loosening? && x.connection == k.second
    ensures x !in ReportFor(q, k.p).changes
  {
    OpeningsCount(k.first, k.tables);
    forall t | t in k.tables ensures TableOpened(k, t) in ChangesOf(q, Some(k.p)) {
      TablesReached(q, k, t);
    }
    if NameLe(k.second, k.first) {
      NameLeAntisymmetric(k.first, k.second);
    }
    LaterIsCut(ChangesOf(q, Some(k.p)), q.perPrincipal, Openings(k.first, k.tables), k.first, x);
  }

  // What survives is opened tables, as many as the cut admits.
  lemma OnlyTablesKept(q: Request, k: Case, x: Change)
    requires Displaces(q, k)
    ensures x in ReportFor(q, k.p).changes ==> x.direction.Loosening? && x.category.TableAccess?
    ensures |ReportFor(q, k.p).changes| == q.perPrincipal
  {
    var all, f := ChangesOf(q, Some(k.p)), FilterDropped(k);
    KeptAndDropped(all, q.perPrincipal);
    FilterReached(q, k);
    SecondIsCut(q, k, f);
    assert f in multiset(Kept(all, q.perPrincipal)) + multiset(Dropped(all, q.perPrincipal));
    assert f in Dropped(all, q.perPrincipal);
    if x in Kept(all, q.perPrincipal) {
      LooseningDroppedLast(all, q.perPrincipal, x, f);
      assert x in multiset(all);
      if x.connection == k.second {
        SecondIsCut(q, k, x);
      }
      OnFirst(q, k, x);
    }
  }

  lemma SamePolicyShared(c: string, pr: Profile, b: Policy, fields: seq<string>)
    ensures SharedChanges(c, pr, b, pr, b, fields) == []
  {
    UnreadUnreported(c, pr, b, b, fields);
  }

  lemma NothingInBaseline(q: Request, k: Case)
    requires Displaces(q, k)
    ensures Baseline(q).changes == []
  {
    var f := ByConnection(q.active, q.candidate, None, q.fields);
    forall c ensures f(c) == [] {
      if c in q.active.registry {
        SamePolicyShared(c, q.active.registry[c], Resolve(q.active.policies, c, None), q.fields);
      }
    }
    FlatMapEmpty(Listing(q.active.registry.Keys + q.candidate.registry.Keys), f);
  }

  lemma OnlyPrincipal(q: Request, p: string)
    requires Overridden(q) == {p}
    ensures PageAt(q, 0, 1) == [p]
  {
    ListingLists({p});
    assert Configured(q)[0] in {p};
  }

  lemma LostRanking(q: Request, k: Case)
    requires Displaces(q, k)
    ensures AllRisks(q, [k.p]) == Risks(Some(k.p), ReportFor(q, k.p).changes)
    ensures |AllRisks(q, [k.p])| == q.perPrincipal
  {
    var kept := ReportFor(q, k.p).changes;
    NothingInBaseline(q, k);
    OneName(k.p, ByRisk(q));
    forall x | x in kept ensures x.direction.Loosening? {
      OnlyTablesKept(q, k, x);
    }
    OnlyTablesKept(q, k, FilterDropped(k));
    RisksCount(Some(k.p), kept);
    Counting.CountAll(kept, Heading(Loosening));
  }

  // The cut of a diff goes by connection before category. So for every cut and
  // every list of fields, tables opened on an earlier connection hide a dropped
  // row filter from the ranking altogether: the filter outranks everything shown,
  // and it is not counted as omitted.
  lemma SevereChangeLost(q: Request, k: Case)
    requires Displaces(q, k)
    ensures var lost, r := Risk(Some(k.p), FilterDropped(k)), BlastOf(q, 0, 1);
            && lost in FullRisks(q, PageAt(q, 0, 1)) && lost !in r.highest
            && (forall y :: y in r.highest ==> RiskLe(lost, y) && !RiskLe(y, lost))
            && |r.highest| + r.omitted == q.perPrincipal
  {
    var lost := Risk(Some(k.p), FilterDropped(k));
    OnlyPrincipal(q, k.p);
    FilterReached(q, k);
    InFullRisks(q, [k.p], lost);
    LostHighest(q, k);
  }

  lemma LostHighest(q: Request, k: Case)
    requires Displaces(q, k)
    ensures var lost, r := Risk(Some(k.p), FilterDropped(k)), BlastFor(q, [k.p], 0, 1);
            && lost !in r.highest
            && (forall y :: y in r.highest ==> RiskLe(lost, y) && !RiskLe(y, lost))
            && |r.highest| + r.omitted == q.perPrincipal
  {
    LostRanking(q, k);
    HighestCount(AllRisks(q, [k.p]), q.risks);
    forall y | y in Highest(AllRisks(q, [k.p]), q.risks)
      ensures RiskLe(Risk(Some(k.p), FilterDropped(k)), y) && !RiskLe(y, Risk(Some(k.p), FilterDropped(k)))
    {
      ShownIsMilder(q, k, y);
    }
  }

  lemma HighestCount(all: seq<Risk>, risks: nat)
    ensures |Highest(all, risks)| + (if |all| > risks then |all| - risks else 0) == |all|
  {
    SortPermutes(all, RiskLe);
  }

  lemma ShownIsMilder(q: Request, k: Case, y: Risk)
    requires Displaces(q, k) && y in Highest(AllRisks(q, [k.p]), q.risks)
    ensures RiskLe(Risk(Some(k.p), FilterDropped(k)), y) && !RiskLe(y, Risk(Some(k.p), FilterDropped(k)))
  {
    var all := AllRisks(q, [k.p]);
    SortPermutes(all, RiskLe);
    assert y in multiset(Sort(all, RiskLe)) && y in all;
    LostRanking(q, k);
    RisksMembers(Some(k.p), ReportFor(q, k.p).changes, y);
    OnlyTablesKept(q, k, y.change);
    SevereKeyFirst(Risk(Some(k.p), FilterDropped(k)), y);
  }

  // ---------------------------------------------------- such a request exists

  const OPEN: Policy :=
    Policy(true, {}, {}, map[], map[], map[], [], false, map[], [], {}, map[], None, "")

  const NO_PATCH: Patch :=
    Patch(None, None, None, None, None, None, None, None, map[], None, None, None, None, None)

  /** Nothing but overrides for one principal. */
  function Side(registry: map<string, Profile>, p: string, per: map<string, Patch>): Context {
    Context(registry, Store(OPEN, map[], map[p := per]))
  }

  function DeniedPatch(tables: set<string>): Patch {
    NO_PATCH.(deniedTables := Some(tables))
  }

  function Asked(k: Case, perPrincipal: nat, risks: nat, fields: seq<string>): Request {
    var registry := map[k.first := k.profile, k.second := k.profile];
    Request(Side(registry, k.p, map[k.first := DeniedPatch(k.tables), k.second := NO_PATCH.(filters := Some([k.filter]))]),
            Side(registry, k.p, map[k.first := DeniedPatch({}), k.second := NO_PATCH]),
            fields, perPrincipal, risks)
  }

  lemma DeniedPatched(tables: set<string>)
    ensures Apply(OPEN, DeniedPatch(tables)) == OPEN.(deniedTables := tables)
  {
    assert OPEN.guards + map[] == map[];
  }

  lemma CaseExists(k: Case, perPrincipal: nat, risks: nat, fields: seq<string>)
    requires Apt(k) && 1 <= perPrincipal <= |k.tables|
    ensures Displaces(Asked(k, perPrincipal, risks, fields), k)
  {
    DeniedPatched(k.tables);
    DeniedPatched({});
    assert [k.filter][0] == k.filter;
    assert LastFilter([k.filter], k.filter.table, k.filter.column) == Some(k.filter);
    var q := Asked(k, perPrincipal, risks, fields);
    assert Resolve(q.active.policies, k.first, Some(k.p)) == Apply(OPEN, DeniedPatch(k.tables));
    assert Resolve(q.candidate.policies, k.first, Some(k.p)) == Apply(OPEN, DeniedPatch({}));
    assert DropsFilter(k, Resolve(q.active.policies, k.second, Some(k.p)), Resolve(q.candidate.policies, k.second, Some(k.p)));
    assert Overridden(q) == {k.p};
  }
}
