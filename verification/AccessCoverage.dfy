// What a whole report says about a whole configuration: everything compared
// reaches the report, and a quiet report means what it seems to mean.
module AccessCoverage {
  import opened Json
  import opened PolicyModel
  import opened StableSort
  import opened AccessDiff
  import opened AccessDuality
  import opened AccessCompleteness
  import opened AccessEnforcement
  import opened AccessReport
  import opened AccessCollector

  // ------------------------------------------------- inside a connection

  lemma InSeven(x1: seq<Change>, x2: seq<Change>, x3: seq<Change>, x4: seq<Change>,
                x5: seq<Change>, x6: seq<Change>, x7: seq<Change>, ch: Change)
    ensures ch in Concat([x1, x2, x3, x4, x5, x6, x7]) <==>
            ch in x1 || ch in x2 || ch in x3 || ch in x4 || ch in x5 || ch in x6 || ch in x7
  {
    ConcatSeven([], x1, x2, x3, x4, x5, x6, x7);
    assert [] + Concat([x1, x2, x3, x4, x5, x6, x7]) == Concat([x1, x2, x3, x4, x5, x6, x7]);
  }

  ghost predicate InSomePart(c: string, u: set<string>, b: Policy, a: Policy, fields: seq<string>, ch: Change) {
    || ch in GuardChanges(c, b, a, fields)
    || ch in TableChanges(c, u, b, a)
    || ch in ColumnChanges(c, AllowedInBoth(u, b, a), b, a)
    || ch in FilterChanges(c, b, a)
    || ch in MaskChanges(c, u, b, a)
    || ch in PurposeChanges(c, b, a)
  }

  lemma PartsReach(c: string, pb: Profile, b: Policy, pa: Profile, a: Policy, fields: seq<string>, ch: Change)
    requires InSomePart(c, NamedTables(pb, b) + NamedTables(pa, a), b, a, fields, ch)
    ensures ch in InnerChanges(c, pb, b, pa, a, fields)
  {
    var u := NamedTables(pb, b) + NamedTables(pa, a);
    InSeven(GuardChanges(c, b, a, fields), TableChanges(c, u, b, a), ColumnChanges(c, AllowedInBoth(u, b, a), b, a),
            FilterChanges(c, b, a), MaskChanges(c, u, b, a), PurposeChanges(c, b, a), JoinGroupChange(c, pb, pa), ch);
  }

  /** The table is listed, or the flipped explicit-allowlist flag is, with the same direction. */
  ghost predicate TableAccounted(c: string, b: Policy, a: Policy, t: string, changes: seq<Change>) {
    || AccessEntry(TableAccess, c, t, TableAllowed(a, t)) in changes
    || (b.explicitOnly != a.explicitOnly && GuardEntry(c, b, a) in changes && (GuardEntry(c, b, a).direction.Loosening? <==> TableAllowed(a, t)))
  }

  lemma InnerCoversTables(c: string, pb: Profile, b: Policy, pa: Profile, a: Policy, fields: seq<string>, t: string)
    requires EXPLICIT in fields && TableAllowed(b, t) != TableAllowed(a, t) && !TablesNoted(b, a)
    ensures TableAccounted(c, b, a, t, InnerChanges(c, pb, b, pa, a, fields))
  {
    var u := NamedTables(pb, b) + NamedTables(pa, a);
    TableDiffComplete(c, pb, b, pa, a, fields, t);
    if TableSilent(c, u, b, a, t) {
      PartsReach(c, pb, b, pa, a, fields, GuardEntry(c, b, a));
    } else {
      PartsReach(c, pb, b, pa, a, fields, AccessEntry(TableAccess, c, t, TableAllowed(a, t)));
    }
  }

  // No change listed and no note: tables, masks and last row filters are unchanged.
  lemma InnerEmptyKeeps(c: string, pb: Profile, b: Policy, pa: Profile, a: Policy, fields: seq<string>, t: string, col: string)
    requires InnerChanges(c, pb, b, pa, a, fields) == [] && EXPLICIT in fields && !TablesNoted(b, a) && !MasksNoted(b, a)
    ensures TableAllowed(b, t) == TableAllowed(a, t)
    ensures ColumnMask(b, t, col) == ColumnMask(a, t, col) && LastRule(b, t, col) == LastRule(a, t, col)
  {
    var u := NamedTables(pb, b) + NamedTables(pa, a);
    if TableAllowed(b, t) != TableAllowed(a, t) {
      InnerCoversTables(c, pb, b, pa, a, fields, t);
    }
    if ColumnMask(b, t, col) != ColumnMask(a, t, col) {
      MaskDiffComplete(c, u, b, a, t, col);
      assert t in MaskUniverse(u, b, a);
      PartsReach(c, pb, b, pa, a, fields, MaskEntry(c, b, a, t, col));
    }
    FilterDiffersIff(b, a, t, col);
    if LastRule(b, t, col) != LastRule(a, t, col) {
      FilterDiffComplete(c, b, a, t, col);
      PartsReach(c, pb, b, pa, a, fields,
                 FilterEntry(c, Dotted(t, col), LastFilter(b.filters, t, col), LastFilter(a.filters, t, col)));
    }
  }

  // The rest of a policy that is compared: guardrails, approval labels, purposes
  // and their narrowings, and the join group of the profile.
  ghost predicate SameRest(pb: Profile, b: Policy, pa: Profile, a: Policy, fields: seq<string>) {
    && (forall f :: f in fields ==> GuardOf(b, f) == GuardOf(a, f))
    && AsSet(b.sensitivities) == AsSet(a.sensitivities)
    && b.purposes == a.purposes && b.purposePolicies == a.purposePolicies
    && pb.joinGroup == pa.joinGroup
  }

  lemma InnerEmptyParts(c: string, pb: Profile, b: Policy, pa: Profile, a: Policy, fields: seq<string>)
    requires InnerChanges(c, pb, b, pa, a, fields) == []
    ensures GuardChanges(c, b, a, fields) == [] && PurposeChanges(c, b, a) == [] && JoinGroupChange(c, pb, pa) == []
  {
    var u := NamedTables(pb, b) + NamedTables(pa, a);
    SevenEmpty(GuardChanges(c, b, a, fields), TableChanges(c, u, b, a), ColumnChanges(c, AllowedInBoth(u, b, a), b, a),
               FilterChanges(c, b, a), MaskChanges(c, u, b, a), PurposeChanges(c, b, a), JoinGroupChange(c, pb, pa));
  }

  lemma SevenEmpty(x1: seq<Change>, x2: seq<Change>, x3: seq<Change>, x4: seq<Change>,
                   x5: seq<Change>, x6: seq<Change>, x7: seq<Change>)
    requires Concat([x1, x2, x3, x4, x5, x6, x7]) == []
    ensures x1 == [] && x6 == [] && x7 == []
  {
    ConcatSeven([], x1, x2, x3, x4, x5, x6, x7);
  }

  lemma InnerEmptyRest(c: string, pb: Profile, b: Policy, pa: Profile, a: Policy, fields: seq<string>)
    requires InnerChanges(c, pb, b, pa, a, fields) == []
    ensures SameRest(pb, b, pa, a, fields)
  {
    InnerEmptyParts(c, pb, b, pa, a, fields);
    GuardsEmptyKeep(c, b, a, fields);
    PurposesEmptyKeep(c, b, a);
  }

  lemma GuardsEmptyKeep(c: string, b: Policy, a: Policy, fields: seq<string>)
    requires GuardChanges(c, b, a, fields) == []
    ensures forall f :: f in fields ==> GuardOf(b, f) == GuardOf(a, f)
    ensures AsSet(b.sensitivities) == AsSet(a.sensitivities)
  {
    forall f | f in fields ensures GuardOf(b, f) == GuardOf(a, f) {
      if GuardOf(b, f) != GuardOf(a, f) {
        GuardReported(c, b, a, fields, f);
      }
    }
    if AsSet(b.sensitivities) != AsSet(a.sensitivities) {
      LabelsReported(c, b, a, fields);
    }
  }

  lemma PurposesEmptyKeep(c: string, b: Policy, a: Policy)
    requires PurposeChanges(c, b, a) == []
    ensures b.purposes == a.purposes && b.purposePolicies == a.purposePolicies
  {
    forall p ensures (p in b.purposes <==> p in a.purposes) && DeltaAt(b, p) == DeltaAt(a, p) {
      PurposeDiffComplete(c, b, a, p);
      if DeltaAt(b, p) != DeltaAt(a, p) {
        DeltaDiffComplete(c, b, a, p);
      }
    }
    SameDeltas(b, a);
  }

  lemma SameDeltas(b: Policy, a: Policy)
    requires forall p :: DeltaAt(b, p) == DeltaAt(a, p)
    ensures b.purposePolicies == a.purposePolicies
  {
    forall p ensures p in b.purposePolicies <==> p in a.purposePolicies {
      assert DeltaAt(b, p) == DeltaAt(a, p);
    }
    forall p | p in b.purposePolicies ensures b.purposePolicies[p] == a.purposePolicies[p] {
      assert DeltaAt(b, p) == DeltaAt(a, p);
    }
  }

  ghost predicate ColumnsDiffer(b: Policy, a: Policy, t: string) {
    exists col :: ColumnAllowed(b, t, col) != ColumnAllowed(a, t, col)
  }

  lemma InnerEmptyColumnsIff(c: string, pb: Profile, b: Policy, pa: Profile, a: Policy, fields: seq<string>, t: string)
    requires InnerChanges(c, pb, b, pa, a, fields) == [] && !ColumnsNoted(b, a) && TableAllowed(b, t) && TableAllowed(a, t)
    ensures ColumnsDiffer(b, a, t) <==>
            || OpenColumns(b, t) != OpenColumns(a, t)
            || (t !in NamedTables(pb, b) + NamedTables(pa, a) && NamedColumnChanges(b, a, t))
  {
    var u := NamedTables(pb, b) + NamedTables(pa, a);
    NamedChangeReached(c, pb, b, pa, a, fields, t);
    ColumnsDifferIff(u, b, a, t);
  }

  lemma NamedChangeReached(c: string, pb: Profile, b: Policy, pa: Profile, a: Policy, fields: seq<string>, t: string)
    requires TableAllowed(b, t) && TableAllowed(a, t)
    ensures t in NamedTables(pb, b) + NamedTables(pa, a) && NamedColumnChanges(b, a, t) ==>
              InnerChanges(c, pb, b, pa, a, fields) != []
  {
    if t in NamedTables(pb, b) + NamedTables(pa, a) && NamedColumnChanges(b, a, t) {
      var col :| ColumnListed(b, a, t, col) && ColumnAllowed(b, t, col) != ColumnAllowed(a, t, col);
      ColumnChangeReached(c, pb, b, pa, a, fields, t, col);
    }
  }

  lemma ColumnsDifferIff(u: set<string>, b: Policy, a: Policy, t: string)
    requires !ColumnsNoted(b, a) && !(t in u && NamedColumnChanges(b, a, t))
    ensures ColumnsDiffer(b, a, t) <==> OpenColumns(b, t) != OpenColumns(a, t) || (t !in u && NamedColumnChanges(b, a, t))
  {
    ColumnGapIff(u, b, a, t);
    if ColumnsDiffer(b, a, t) {
      var col :| ColumnAllowed(b, t, col) != ColumnAllowed(a, t, col);
      assert ColumnSilent(u, b, a, t, col);
    }
  }

  lemma ColumnChangeReached(c: string, pb: Profile, b: Policy, pa: Profile, a: Policy, fields: seq<string>, t: string, col: string)
    requires t in NamedTables(pb, b) + NamedTables(pa, a) && TableAllowed(b, t) && TableAllowed(a, t)
    requires ColumnListed(b, a, t, col) && ColumnAllowed(b, t, col) != ColumnAllowed(a, t, col)
    ensures InnerChanges(c, pb, b, pa, a, fields) != []
  {
    var u := NamedTables(pb, b) + NamedTables(pa, a);
    ColumnEntryListed(c, AllowedInBoth(u, b, a), b, a, t, col);
    PartsReach(c, pb, b, pa, a, fields, AccessEntry(ColumnAccess, c, Dotted(t, col), ColumnAllowed(a, t, col)));
  }

  // ------------------------------------------------------- the whole report

  ghost function InnerOf(c: string, active: Context, candidate: Context, who: Option<string>, fields: seq<string>): seq<Change>
    requires c in active.registry && c in candidate.registry
  {
    InnerChanges(c, active.registry[c], Resolve(active.policies, c, who),
                 candidate.registry[c], Resolve(candidate.policies, c, who), fields)
  }

  lemma InnerReported(c: string, active: Context, candidate: Context, who: Option<string>, fields: seq<string>, ch: Change)
    requires BothVisible(c, active, candidate, who) && ch in InnerOf(c, active, candidate, who, fields)
    ensures ch in AllChanges(active, candidate, who, fields)
  {
    InnerAbout(c, active.registry[c], Resolve(active.policies, c, who),
               candidate.registry[c], Resolve(candidate.policies, c, who), fields);
    assert ch.connection == c;
    InAllChanges(active, candidate, who, fields, ch);
  }

  // A report that was not truncated holds exactly the changes there are.
  lemma UntruncatedHoldsAll(active: Context, candidate: Context, who: Option<string>, fields: seq<string>, max: nat, ch: Change)
    requires !AccessReportOf(active, candidate, who, fields, max).truncated
    ensures ch in AccessReportOf(active, candidate, who, fields, max).changes <==> ch in AllChanges(active, candidate, who, fields)
  {
    var all := AllChanges(active, candidate, who, fields);
    SortPermutes(all, ChangeLe);
    assert ch in all <==> ch in multiset(all);
    assert ch in Sort(all, ChangeLe) <==> ch in multiset(Sort(all, ChangeLe));
  }

  lemma UntruncatedInner(active: Context, candidate: Context, who: Option<string>, fields: seq<string>, max: nat, c: string, ch: Change)
    requires !AccessReportOf(active, candidate, who, fields, max).truncated && BothVisible(c, active, candidate, who)
    ensures ch in InnerOf(c, active, candidate, who, fields) ==> ch in AccessReportOf(active, candidate, who, fields, max).changes
  {
    if ch in InnerOf(c, active, candidate, who, fields) {
      InnerReported(c, active, candidate, who, fields, ch);
      UntruncatedHoldsAll(active, candidate, who, fields, max, ch);
    }
  }

  lemma NoteKept(active: Context, candidate: Context, who: Option<string>, fields: seq<string>, max: nat, n: Note)
    ensures var r := AccessReportOf(active, candidate, who, fields, max);
            n in r.notes <==> NoteDue(n, active, candidate, who) || (n.Truncated? && r.truncated)
  {
    NotesExact(active, candidate, who, n);
    NotedMembers(AllNotes(active, candidate, who), Truncated, |AllChanges(active, candidate, who, fields)| > max, n);
  }

  // End to end, for any table name whatever: if its accessibility differs, the
  // report lists it or the flipped flag, or warns about unnamed tables, or says
  // that it was cut.
  lemma ReportCoversTables(active: Context, candidate: Context, who: Option<string>, fields: seq<string>, max: nat, c: string, t: string)
    requires BothVisible(c, active, candidate, who) && EXPLICIT in fields
    requires TableAllowed(Resolve(active.policies, c, who), t) != TableAllowed(Resolve(candidate.policies, c, who), t)
    ensures var r := AccessReportOf(active, candidate, who, fields, max);
            || TableAccounted(c, Resolve(active.policies, c, who), Resolve(candidate.policies, c, who), t, r.changes)
            || TablesToggled(c) in r.notes || Truncated in r.notes
  {
    var b, a := Resolve(active.policies, c, who), Resolve(candidate.policies, c, who);
    NoteKept(active, candidate, who, fields, max, TablesToggled(c));
    NoteKept(active, candidate, who, fields, max, Truncated);
    if !TablesNoted(b, a) && !AccessReportOf(active, candidate, who, fields, max).truncated {
      InnerCoversTables(c, active.registry[c], b, candidate.registry[c], a, fields, t);
      UntruncatedInner(active, candidate, who, fields, max, c, AccessEntry(TableAccess, c, t, TableAllowed(a, t)));
      UntruncatedInner(active, candidate, who, fields, max, c, GuardEntry(c, b, a));
    }
  }

  // ------------------------------------------------------ the quiet report

  ghost predicate Quiet(active: Context, candidate: Context, who: Option<string>, fields: seq<string>, max: nat) {
    var r := AccessReportOf(active, candidate, who, fields, max);
    r.changes == [] && r.notes == []
  }

  lemma QuietIsEmpty(active: Context, candidate: Context, who: Option<string>, fields: seq<string>, max: nat)
    requires Quiet(active, candidate, who, fields, max)
    ensures AllChanges(active, candidate, who, fields) == []
  {
    NoteKept(active, candidate, who, fields, max, Truncated);
    KeptAndDropped(AllChanges(active, candidate, who, fields), max);
  }

  lemma QuietNotes(active: Context, candidate: Context, who: Option<string>, fields: seq<string>, max: nat, n: Note)
    requires Quiet(active, candidate, who, fields, max)
    ensures !NoteDue(n, active, candidate, who)
  {
    NoteKept(active, candidate, who, fields, max, n);
  }

  // Nothing comes, goes or changes visibility.
  lemma QuietConnections(active: Context, candidate: Context, who: Option<string>, fields: seq<string>, max: nat, c: string)
    requires Quiet(active, candidate, who, fields, max)
    ensures c in active.registry <==> c in candidate.registry
    ensures c in active.registry ==>
              (Visible(active.registry[c], Resolve(active.policies, c, who)) <==>
               Visible(candidate.registry[c], Resolve(candidate.policies, c, who)))
  {
    QuietIsEmpty(active, candidate, who, fields, max);
    var here := ConnectionChanges(c, active, candidate, who, fields);
    if here != [] {
      ConnectionAbout(c, active, candidate, who, fields);
      InAllChanges(active, candidate, who, fields, here[0]);
    }
  }

  lemma QuietInner(active: Context, candidate: Context, who: Option<string>, fields: seq<string>, max: nat, c: string)
    requires BothVisible(c, active, candidate, who) && Quiet(active, candidate, who, fields, max)
    ensures InnerOf(c, active, candidate, who, fields) == []
  {
    QuietIsEmpty(active, candidate, who, fields, max);
    var inner := InnerOf(c, active, candidate, who, fields);
    if inner != [] {
      InnerReported(c, active, candidate, who, fields, inner[0]);
    }
  }

  lemma QuietUnnoted(active: Context, candidate: Context, who: Option<string>, fields: seq<string>, max: nat, c: string)
    requires BothVisible(c, active, candidate, who) && Quiet(active, candidate, who, fields, max)
    ensures var b, a := Resolve(active.policies, c, who), Resolve(candidate.policies, c, who);
            !TablesNoted(b, a) && !ColumnsNoted(b, a) && !MasksNoted(b, a)
  {
    QuietNotes(active, candidate, who, fields, max, TablesToggled(c));
    QuietNotes(active, candidate, who, fields, max, ColumnsToggled(c));
    QuietNotes(active, candidate, who, fields, max, WildcardMasks(c));
  }

  // Inside a connection, over all names: every table and every mask is as before,
  // and so is the last row filter of every column. The filters enforced on a
  // column still change exactly when those hidden behind the last one do.
  lemma QuietInside(active: Context, candidate: Context, who: Option<string>, fields: seq<string>, max: nat, c: string, t: string, col: string)
    requires BothVisible(c, active, candidate, who) && EXPLICIT in fields && Quiet(active, candidate, who, fields, max)
    ensures var b, a := Resolve(active.policies, c, who), Resolve(candidate.policies, c, who);
            && TableAllowed(b, t) == TableAllowed(a, t)
            && ColumnMask(b, t, col) == ColumnMask(a, t, col)
            && LastRule(b, t, col) == LastRule(a, t, col)
            && (Enforced(b, t, col) != Enforced(a, t, col) <==> Shadowed(b, t, col) != Shadowed(a, t, col))
  {
    var b, a := Resolve(active.policies, c, who), Resolve(candidate.policies, c, who);
    QuietInner(active, candidate, who, fields, max, c);
    QuietUnnoted(active, candidate, who, fields, max, c);
    InnerEmptyKeeps(c, active.registry[c], b, candidate.registry[c], a, fields, t, col);
    FilterListedIff(c, b, a, t, col);
    FilterGapIff(c, b, a, t, col);
  }

  // As before are also its guardrails, approval labels, purposes with their
  // narrowings and the profile's join group; the group that decides about joins
  // still changes exactly when the policy moves it.
  lemma QuietRest(active: Context, candidate: Context, who: Option<string>, fields: seq<string>, max: nat, c: string)
    requires BothVisible(c, active, candidate, who) && Quiet(active, candidate, who, fields, max)
    ensures var b, a := Resolve(active.policies, c, who), Resolve(candidate.policies, c, who);
            && SameRest(active.registry[c], b, candidate.registry[c], a, fields)
            && (EffectiveGroup(active.registry[c], b) != EffectiveGroup(candidate.registry[c], a) <==>
                GroupMoves(active.registry[c].joinGroup, b, a))
  {
    var b, a := Resolve(active.policies, c, who), Resolve(candidate.policies, c, who);
    QuietInner(active, candidate, who, fields, max, c);
    InnerEmptyRest(c, active.registry[c], b, candidate.registry[c], a, fields);
    GroupGapIff(c, active.registry[c], b, candidate.registry[c], a);
  }

  // Columns are the exception: under a quiet report, columns of a table allowed
  // on both sides still change exactly in the two gaps.
  lemma QuietColumnsIff(active: Context, candidate: Context, who: Option<string>, fields: seq<string>, max: nat, c: string, t: string)
    requires BothVisible(c, active, candidate, who) && Quiet(active, candidate, who, fields, max)
    requires TableAllowed(Resolve(active.policies, c, who), t) && TableAllowed(Resolve(candidate.policies, c, who), t)
    ensures var b, a := Resolve(active.policies, c, who), Resolve(candidate.policies, c, who);
            ColumnsDiffer(b, a, t) <==>
            || OpenColumns(b, t) != OpenColumns(a, t)
            || (t !in NamedTables(active.registry[c], b) + NamedTables(candidate.registry[c], a) && NamedColumnChanges(b, a, t))
  {
    QuietInner(active, candidate, who, fields, max, c);
    QuietUnnoted(active, candidate, who, fields, max, c);
    InnerEmptyColumnsIff(c, active.registry[c], Resolve(active.policies, c, who),
                         candidate.registry[c], Resolve(candidate.policies, c, who), fields, t);
  }
}
