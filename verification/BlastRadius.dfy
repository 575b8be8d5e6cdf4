// `compute_blast_radius_report`: the access diff of every configured principal,
// a page at a time, with the loosening changes ranked by risk.
module BlastRadius {
  import opened Json
  import opened PolicyModel
  import opened StableSort
  import opened TupleOrder
  import opened Paging
  import opened AccessDiff
  import opened AccessDuality
  import opened AccessReport
  import opened AccessCollector
  import opened AccessCoverage

  const BASELINE_CHANGES: nat := 500

  /** A loosening change; no principal means it is in the baseline. */
  datatype Risk = Risk(principal: Option<string>, change: Change)

  function RiskRank(c: Category): nat {
    match c
    case MandatoryFilter => 0
    case PurposeAccess => 0
    case ConnectionVisibility => 1
    case TableAccess => 1
    case ColumnAccess => 1
    case ColumnMasking => 1
    case Guardrail => 2
    case JoinGroup => 3
  }

  function RiskKey(x: Risk): seq<Part> {
    [Rank(RiskRank(x.change.category)), Rank(if x.principal.None? then 0 else 1), Name(x.change.connection),
     Name(Or(x.principal, "")), Name(Or(x.change.subject, ""))]
  }

  predicate RiskLe(a: Risk, b: Risk) {
    KeyLe(RiskKey(a), RiskKey(b))
  }

  lemma RiskLeIsTotalPreorder()
    ensures TotalPreorder(RiskLe)
  {
    ByKeyIsTotalPreorder(RiskKey, RiskLe);
  }

  /** `_ranked`: the loosening changes, tagged. */
  function Risks(who: Option<string>, changes: seq<Change>): seq<Risk> {
    if changes == [] then []
    else
      var n := |changes| - 1;
      if changes[n].direction.Loosening? then Risks(who, changes[..n]) + [Risk(who, changes[n])]
      else Risks(who, changes[..n])
  }

  lemma {:induction false} RisksMembers(who: Option<string>, changes: seq<Change>, x: Risk)
    ensures x in Risks(who, changes) <==> x.principal == who && x.change in changes && x.change.direction.Loosening?
  {
    if changes != [] {
      var n := |changes| - 1;
      RisksMembers(who, changes[..n], x);
      assert changes == changes[..n] + [changes[n]];
    }
  }

  datatype Impact = Impact(principal: string, report: Report)

  datatype Blast = Blast(
    baseline: Report, impacts: seq<Impact>, configured: nat, evaluated: nat,
    highest: seq<Risk>, notes: seq<Note>, omitted: nat, offset: nat, next: Option<nat>)

  /** The two configurations and the limits of one request. */
  datatype Request = Request(active: Context, candidate: Context, fields: seq<string>, perPrincipal: nat, risks: nat)

  ghost function Baseline(q: Request): Report {
    AccessReportOf(q.active, q.candidate, None, q.fields, BASELINE_CHANGES)
  }

  ghost function ReportFor(q: Request, p: string): Report {
    AccessReportOf(q.active, q.candidate, Some(p), q.fields, q.perPrincipal)
  }

  /** Principals with an override in either configuration. */
  function Overridden(q: Request): set<string> {
    q.active.policies.principals.Keys + q.candidate.policies.principals.Keys
  }

  ghost function Configured(q: Request): seq<string> {
    Listing(Overridden(q))
  }

  ghost function ByImpact(q: Request): string -> seq<Impact> {
    p => ImpactOf(p, ReportFor(q, p))
  }

  function ImpactOf(p: string, r: Report): seq<Impact> {
    if r.changes != [] || r.notes != [] then [Impact(p, r)] else []
  }

  ghost function ByRisk(q: Request): string -> seq<Risk> {
    p => Risks(Some(p), ReportFor(q, p).changes)
  }

  ghost function AllRisks(q: Request, page: seq<string>): seq<Risk> {
    Risks(None, Baseline(q).changes) + FlatMap(page, ByRisk(q))
  }

  ghost function Impacts(q: Request, page: seq<string>): seq<Impact> {
    FlatMap(page, ByImpact(q))
  }

  function Highest(all: seq<Risk>, max: nat): seq<Risk> {
    var sorted := Sort(all, RiskLe);
    if |sorted| > max then sorted[..max] else sorted
  }

  function Assembled(
    baseline: Report, impacts: seq<Impact>, configured: nat, evaluated: nat, all: seq<Risk>, risks: nat, offset: nat, size: nat): Blast {
    Blast(baseline, impacts, configured, evaluated, Highest(all, risks), baseline.notes,
          if |all| > risks then |all| - risks else 0, offset, Next(configured, offset, size))
  }

  ghost function BlastFor(q: Request, page: seq<string>, offset: nat, size: nat): Blast {
    Assembled(Baseline(q), Impacts(q, page), |Configured(q)|, |page|, AllRisks(q, page), q.risks, offset, size)
  }

  ghost function BlastOf(q: Request, offset: nat, size: nat): Blast {
    BlastFor(q, Page(Configured(q), offset, size), offset, size)
  }

  // ----------------------------------------------------------- the method

  method TagLoosening(who: Option<string>, changes: seq<Change>) returns (r: seq<Risk>)
    ensures r == Risks(who, changes)
  {
    r := [];
    var i := 0;
    while i < |changes|
      invariant i <= |changes|
      invariant r == Risks(who, changes[..i])
    {
      assert changes[..i + 1][..i] == changes[..i];
      if changes[i].direction.Loosening? {
        r := r + [Risk(who, changes[i])];
      }
      i := i + 1;
    }
    Whole(changes);
  }

  method Evaluate(q: Request, page: seq<string>, base: seq<Risk>) returns (impacts: seq<Impact>, ranked: seq<Risk>)
    ensures impacts == Impacts(q, page)
    ensures ranked == base + FlatMap(page, ByRisk(q))
  {
    impacts, ranked := [], base;
    ghost var f, g := ByImpact(q), ByRisk(q);
    var i := 0;
    while i < |page|
      invariant i <= |page|
      invariant impacts == FlatMap(page[..i], f)
      invariant ranked == base + FlatMap(page[..i], g)
    {
      FlatMapStep(page, f, i);
      Append(base, page, g, i);
      var shown, more := EvaluateOne(q, page[i]);
      impacts, ranked := impacts + shown, ranked + more;
      i := i + 1;
    }
    Whole(page);
  }

  method EvaluateOne(q: Request, p: string) returns (shown: seq<Impact>, more: seq<Risk>)
    ensures shown == ByImpact(q)(p) && more == ByRisk(q)(p)
  {
    var r := ComputeAccessDiff(q.active, q.candidate, Some(p), q.fields, q.perPrincipal);
    shown := if r.changes != [] || r.notes != [] then [Impact(p, r)] else [];
    more := TagLoosening(Some(p), r.changes);
  }

  // `compute_blast_radius_report`: a negative offset counts as 0.
  method ComputeBlastRadius(q: Request, offset: int, size: nat) returns (r: Blast)
    ensures r == BlastOf(q, if offset < 0 then 0 else offset, size)
  {
    var baseline := ComputeAccessDiff(q.active, q.candidate, None, q.fields, BASELINE_CHANGES);
    var configured := SortNames(Overridden(q));
    var at: nat := if offset < 0 then 0 else offset;
    r := EvaluatePage(q, baseline, |configured|, Page(configured, at, size), at, size);
  }

  method EvaluatePage(q: Request, baseline: Report, configured: nat, page: seq<string>, at: nat, size: nat) returns (r: Blast)
    requires baseline == Baseline(q) && configured == |Configured(q)|
    ensures r == BlastFor(q, page, at, size)
  {
    var base := TagLoosening(None, baseline.changes);
    var impacts, ranked := Evaluate(q, page, base);
    r := Assembled(baseline, impacts, configured, |page|, ranked, q.risks, at, size);
  }

  // ------------------------------------------------ the highest risks shown

  lemma InAllRisks(q: Request, page: seq<string>, x: Risk)
    ensures x in AllRisks(q, page) <==>
            && x.change.direction.Loosening?
            && (if x.principal.None? then x.change in Baseline(q).changes
                else x.principal.value in page && x.change in ReportFor(q, x.principal.value).changes)
  {
    RisksMembers(None, Baseline(q).changes, x);
    InFlatMap(page, ByRisk(q), x);
    forall p ensures x in ByRisk(q)(p) <==>
                     x.principal == Some(p) && x.change in ReportFor(q, p).changes && x.change.direction.Loosening? {
      RisksMembers(Some(p), ReportFor(q, p).changes, x);
    }
  }

  // The top of any list of risks: each is shown, or the list is full of risks
  // that rank no lower.
  lemma TopRisks(all: seq<Risk>, max: nat, x: Risk)
    requires x in all
    ensures |Highest(all, max)| == if |all| > max then max else |all|
    ensures x in Highest(all, max) || (|all| > max && forall y :: y in Highest(all, max) ==> RiskLe(y, x))
  {
    var sorted := Sort(all, RiskLe);
    SortPermutes(all, RiskLe);
    assert x in multiset(sorted);
    if |all| > max {
      RiskLeIsTotalPreorder();
      TopK(all, RiskLe, max);
      assert sorted == sorted[..max] + sorted[max..];
    }
  }

  // ------------------------------------------- who can differ from the baseline

  lemma {:induction false} FlatMapSame<T, U>(names: seq<T>, f: T -> seq<U>, g: T -> seq<U>)
    requires forall n :: n in names ==> f(n) == g(n)
    ensures FlatMap(names, f) == FlatMap(names, g)
  {
    if names != [] {
      FlatMapSame(names[..|names| - 1], f, g);
    }
  }

  // A principal no configuration overrides sees exactly the baseline changes.
  lemma UnconfiguredFollowBaseline(q: Request, p: string)
    requires p !in Overridden(q)
    ensures AllChanges(q.active, q.candidate, Some(p), q.fields) == AllChanges(q.active, q.candidate, None, q.fields)
  {
    var f, g := ByConnection(q.active, q.candidate, Some(p), q.fields), ByConnection(q.active, q.candidate, None, q.fields);
    forall c ensures f(c) == g(c) {
      assert Resolve(q.active.policies, c, Some(p)) == Resolve(q.active.policies, c, None);
      assert Resolve(q.candidate.policies, c, Some(p)) == Resolve(q.candidate.policies, c, None);
    }
    FlatMapSame(Listing(q.active.registry.Keys + q.candidate.registry.Keys), f, g);
  }

  lemma ImpactListed(q: Request, page: seq<string>, p: string)
    ensures Impact(p, ReportFor(q, p)) in Impacts(q, page) <==>
            p in page && !Quiet(q.active, q.candidate, Some(p), q.fields, q.perPrincipal)
  {
    ImpactsOf(page, n => ReportFor(q, n), ByImpact(q), p);
  }

  lemma ImpactsOf(page: seq<string>, report: string -> Report, f: string -> seq<Impact>, p: string)
    requires forall n :: f(n) == ImpactOf(n, report(n))
    ensures Impact(p, report(p)) in FlatMap(page, f) <==> p in page && (report(p).changes != [] || report(p).notes != [])
  {
    InFlatMap(page, f, Impact(p, report(p)));
  }

  ghost predicate ShownAt(q: Request, size: nat, k: nat, p: string) {
    && Cursor(|Configured(q)|, size, k).Some?
    && Impact(p, ReportFor(q, p)) in BlastOf(q, Cursor(|Configured(q)|, size, k).value, size).impacts
  }

  ghost predicate ShownOnce(q: Request, size: nat, p: string) {
    exists k: nat :: ShownAt(q, size, k, p) && forall j: nat :: ShownAt(q, size, j, p) ==> j == k
  }

  // Over all requests that follow the cursor: a principal no configuration
  // overrides sees exactly the baseline changes; an overridden one whose own
  // report lists or notes anything is shown with it by exactly one request.
  lemma NobodySilent(q: Request, size: nat, p: string)
    requires size >= 1
    ensures p !in Overridden(q) ==>
              AllChanges(q.active, q.candidate, Some(p), q.fields) == AllChanges(q.active, q.candidate, None, q.fields)
    ensures p in Overridden(q) && !Quiet(q.active, q.candidate, Some(p), q.fields, q.perPrincipal) ==> ShownOnce(q, size, p)
  {
    if p !in Overridden(q) {
      UnconfiguredFollowBaseline(q, p);
    } else if !Quiet(q.active, q.candidate, Some(p), q.fields, q.perPrincipal) {
      ShownByOne(q, size, p);
    }
  }

  lemma ShownByOne(q: Request, size: nat, p: string)
    requires size >= 1 && p in Overridden(q) && !Quiet(q.active, q.candidate, Some(p), q.fields, q.perPrincipal)
    ensures ShownOnce(q, size, p)
  {
    ListingLists(Overridden(q));
    var k := EachOnOnePage(Configured(q), size, p);
    ShownIffOnPage(q, size, k, p);
    forall j: nat | ShownAt(q, size, j, p) ensures j == k {
      ShownIffOnPage(q, size, j, p);
    }
  }

  lemma ShownIffOnPage(q: Request, size: nat, j: nat, p: string)
    requires !Quiet(q.active, q.candidate, Some(p), q.fields, q.perPrincipal)
    ensures ShownAt(q, size, j, p) <==> OnPage(Configured(q), size, j, p)
  {
    var at := Cursor(|Configured(q)|, size, j);
    if at.Some? {
      ImpactListed(q, Page(Configured(q), at.value, size), p);
    }
  }
}
