// The blast-radius report in terms of the policies in force: what its ranked list
// says, in which order, and how large its baseline may be.
module BlastExact {
  import opened Json
  import opened StableSort
  import opened TupleOrder
  import opened AccessDiff
  import opened AccessReport
  import AccessExact
  import opened BlastRadius
  import opened BlastRanking

  /** By severity; in one class the baseline first; then connection, principal, subject. */
  ghost predicate RiskInOrder(x: Risk, y: Risk) {
    && !MoreSevere(y.change.category, x.change.category)
    && (!MoreSevere(x.change.category, y.change.category) ==>
          && (y.principal.None? ==> x.principal.None?)
          && (x.principal.None? == y.principal.None? ==> LaterParts(x, y)))
  }

  ghost predicate LaterParts(x: Risk, y: Risk) {
    var p, q := Or(x.principal, ""), Or(y.principal, "");
    && NameLe(x.change.connection, y.change.connection)
    && (x.change.connection == y.change.connection ==>
          NameLe(p, q) && (p == q ==> NameLe(Or(x.change.subject, ""), Or(y.change.subject, ""))))
  }

  lemma SameClass(x: Category, y: Category)
    ensures RiskRank(x) < RiskRank(y) <==> MoreSevere(x, y)
  {
  }

  lemma RiskLeMeans(x: Risk, y: Risk)
    requires RiskLe(x, y)
    ensures RiskInOrder(x, y)
  {
    var a, b := RiskKey(x), RiskKey(y);
    SameClass(x.change.category, y.change.category);
    SameClass(y.change.category, x.change.category);
    LeadingRank(a, b);
    if a[0] == b[0] {
      LeadingRank(a[1..], b[1..]);
      if a[1] == b[1] {
        NameLeReflexive(x.change.connection);
        NameLeReflexive(Or(x.principal, ""));
        NameLeReflexive(Or(x.change.subject, ""));
        KeyParts(a[1..], b[1..]);
      }
    }
  }

  lemma InBaselineHolds(q: Request, ch: Change)
    requires ch in Baseline(q).changes
    ensures AccessExact.Holds(ch, q.active, q.candidate, None, q.fields)
  {
    AccessExact.ReportExact(q.active, q.candidate, None, q.fields, BASELINE_CHANGES, ch);
  }

  lemma InReportHolds(q: Request, p: string, ch: Change)
    requires ch in ReportFor(q, p).changes
    ensures AccessExact.Holds(ch, q.active, q.candidate, Some(p), q.fields)
  {
    AccessExact.ReportExact(q.active, q.candidate, Some(p), q.fields, q.perPrincipal, ch);
  }

  lemma ShownHolds(q: Request, page: seq<string>, x: Risk)
    requires x in AllRisks(q, page)
    ensures x.change.direction == Loosening
    ensures AccessExact.Holds(x.change, q.active, q.candidate, x.principal, q.fields)
  {
    InAllRisks(q, page, x);
    match x.principal
    case None => InBaselineHolds(q, x.change);
    case Some(p) => InReportHolds(q, p, x.change);
  }

  lemma HighestIn(all: seq<Risk>, max: nat)
    ensures forall x :: x in Highest(all, max) ==> x in all
    ensures forall i, j :: 0 <= i < j < |Highest(all, max)| ==> RiskInOrder(Highest(all, max)[i], Highest(all, max)[j])
  {
    var shown := Highest(all, max);
    SortPermutes(all, RiskLe);
    RiskLeIsTotalPreorder();
    SortSorts(all, RiskLe);
    forall x | x in shown ensures x in all {
      assert x in multiset(Sort(all, RiskLe)) && x in multiset(all);
    }
    forall i, j | 0 <= i < j < |shown| ensures RiskInOrder(shown[i], shown[j]) {
      RiskLeMeans(shown[i], shown[j]);
    }
  }

  // Each risk shown is a loosening change that holds for its principal, or for the
  // baseline, under the policies in force; and the list is in order.
  lemma HighestHold(q: Request, offset: nat, size: nat)
    ensures var shown := BlastOf(q, offset, size).highest;
            && (forall x :: x in shown ==>
                  x.change.direction == Loosening && AccessExact.Holds(x.change, q.active, q.candidate, x.principal, q.fields))
            && (forall i, j :: 0 <= i < j < |shown| ==> RiskInOrder(shown[i], shown[j]))
  {
    var page := PageAt(q, offset, size);
    var shown := BlastOf(q, offset, size).highest;
    HighestIn(AllRisks(q, page), q.risks);
    forall x | x in shown
      ensures x.change.direction == Loosening && AccessExact.Holds(x.change, q.active, q.candidate, x.principal, q.fields)
    {
      ShownHolds(q, page, x);
    }
  }

  // The baseline lists 500 changes at most, and all there are if there are no more.
  lemma BaselineHolds(q: Request, offset: nat, size: nat, ch: Change)
    ensures var r := BlastOf(q, offset, size).baseline;
            && |r.changes| <= 500
            && (ch in r.changes ==> AccessExact.Holds(ch, q.active, q.candidate, None, q.fields))
            && (AccessExact.Holds(ch, q.active, q.candidate, None, q.fields) && ch !in r.changes ==> |r.changes| == 500)
  {
    AccessExact.ReportExact(q.active, q.candidate, None, q.fields, BASELINE_CHANGES, ch);
    KeptAndDropped(AllChanges(q.active, q.candidate, None, q.fields), BASELINE_CHANGES);
  }
}
