// `compute_access_diff` as it runs: loops that append to one shared diff, then
// the sort, the cut and the summary.
module AccessCollector {
  import opened Json
  import opened PolicyModel
  import opened StableSort
  import opened AccessDiff
  import opened AccessReport

  // ------------------------------------------------------------ the loops

  lemma FlatMapStep<T, U>(names: seq<T>, f: T -> seq<U>, i: nat)
    requires i < |names|
    ensures FlatMap(names[..i + 1], f) == FlatMap(names[..i], f) + f(names[i])
  {
    assert names[..i + 1][..i] == names[..i];
  }

  lemma Append<T, U>(base: seq<U>, names: seq<T>, f: T -> seq<U>, i: nat)
    requires i < |names|
    ensures base + FlatMap(names[..i + 1], f) == base + FlatMap(names[..i], f) + f(names[i])
  {
    FlatMapStep(names, f, i);
  }

  lemma Regroup<T>(x: seq<T>, y: seq<T>, z: seq<T>)
    ensures x + y + z == x + (y + z)
  {
  }

  lemma Regroup4<T>(base: seq<T>, w: seq<T>, x: seq<T>, y: seq<T>, z: seq<T>)
    ensures base + w + x + y + z == base + (w + (x + (y + z)))
  {
  }

  lemma Whole<T>(s: seq<T>)
    ensures s[..|s|] == s
  {
  }

  lemma ConcatAppend(base: seq<Change>, parts: seq<seq<Change>>, x: seq<Change>)
    ensures base + Concat(parts + [x]) == base + Concat(parts) + x
  {
    assert (parts + [x])[..|parts|] == parts;
  }

  lemma ConcatThree(base: seq<Change>, x1: seq<Change>, x2: seq<Change>, x3: seq<Change>)
    ensures base + Concat([x1, x2, x3]) == base + x1 + x2 + x3
  {
    ConcatAppend(base, [], x1);
    ConcatAppend(base, [x1], x2);
    ConcatAppend(base, [x1, x2], x3);
    assert [] + [x1] == [x1] && [x1] + [x2] == [x1, x2] && [x1, x2] + [x3] == [x1, x2, x3];
  }

  lemma ConcatSeven(base: seq<Change>, x1: seq<Change>, x2: seq<Change>, x3: seq<Change>, x4: seq<Change>,
                    x5: seq<Change>, x6: seq<Change>, x7: seq<Change>)
    ensures base + Concat([x1, x2, x3, x4, x5, x6, x7]) == base + x1 + x2 + x3 + x4 + x5 + x6 + x7
  {
    ConcatThree(base, x1, x2, x3);
    ConcatFour(base, [x1, x2, x3], x4, x5, x6, x7);
    assert [x1, x2, x3] + [x4] + [x5] + [x6] + [x7] == [x1, x2, x3, x4, x5, x6, x7];
  }

  lemma ConcatFour(base: seq<Change>, parts: seq<seq<Change>>, x4: seq<Change>, x5: seq<Change>, x6: seq<Change>, x7: seq<Change>)
    ensures base + Concat(parts + [x4] + [x5] + [x6] + [x7]) == base + Concat(parts) + x4 + x5 + x6 + x7
  {
    ConcatAppend(base, parts, x4);
    ConcatAppend(base, parts + [x4], x5);
    ConcatAppend(base, parts + [x4] + [x5], x6);
    ConcatAppend(base, parts + [x4] + [x5] + [x6], x7);
  }

  ghost function AllowedAmong(names: seq<string>, b: Policy, a: Policy): set<string> {
    set t | t in names && TableAllowed(b, t) && TableAllowed(a, t)
  }

  lemma AllowedStep(names: seq<string>, i: nat, b: Policy, a: Policy)
    requires i < |names|
    ensures AllowedAmong(names[..i + 1], b, a) ==
            if TableAllowed(b, names[i]) && TableAllowed(a, names[i])
            then AllowedAmong(names[..i], b, a) + {names[i]} else AllowedAmong(names[..i], b, a)
  {
    assert names[..i + 1] == names[..i] + [names[i]];
  }

  lemma AllowedListed(universe: set<string>, b: Policy, a: Policy)
    ensures AllowedInBoth(universe, b, a) == AllowedAmong(Listing(universe), b, a)
  {
    ListingLists(universe);
  }

  lemma InnerInOrder(base: seq<Change>, c: string, pb: Profile, b: Policy, pa: Profile, a: Policy, fields: seq<string>)
    ensures var u := NamedTables(pb, b) + NamedTables(pa, a);
            base + InnerChanges(c, pb, b, pa, a, fields) ==
            base + GuardChanges(c, b, a, fields) + TableChanges(c, u, b, a) + ColumnChanges(c, AllowedInBoth(u, b, a), b, a)
            + FilterChanges(c, b, a) + MaskChanges(c, u, b, a) + PurposeChanges(c, b, a) + JoinGroupChange(c, pb, pa)
  {
    var u := NamedTables(pb, b) + NamedTables(pa, a);
    ConcatSeven(base, GuardChanges(c, b, a, fields), TableChanges(c, u, b, a), ColumnChanges(c, AllowedInBoth(u, b, a), b, a),
                FilterChanges(c, b, a), MaskChanges(c, u, b, a), PurposeChanges(c, b, a), JoinGroupChange(c, pb, pa));
  }

  class Diff {
    var changes: seq<Change>
    var notes: seq<Note>

    constructor ()
      ensures changes == [] && notes == []
    {
      changes, notes := [], [];
    }

    method Add(ch: Change)
      modifies this`changes
      ensures changes == old(changes) + [ch]
    {
      changes := changes + [ch];
    }

    method AddNote(n: Note)
      modifies this`notes
      ensures notes == Noted(old(notes), n, true)
    {
      if n !in notes {
        notes := notes + [n];
      }
    }

    method DiffGuardrails(c: string, before: Policy, after: Policy, fields: seq<string>)
      modifies this`changes
      ensures changes == old(changes) + GuardChanges(c, before, after, fields)
    {
      ghost var f := ByField(c, before, after);
      var i := 0;
      while i < |fields|
        invariant i <= |fields|
        invariant changes == old(changes) + FlatMap(fields[..i], f)
      {
        var b, a := GuardOf(before, fields[i]), GuardOf(after, fields[i]);
        Append(old(changes), fields, f, i);
        if b != a {
          Add(Change(Guardrail, c, Some(fields[i]), Modified, Compare(fields[i], b, a), Some(Value(b)), Some(Value(a))));
        }
        i := i + 1;
      }
      Whole(fields);
      Regroup(old(changes), FlatMap(fields, f), SensitivityChange(c, before, after));
      changes := changes + SensitivityChange(c, before, after);
    }

    /** `universe` holds every table either side names. */
    method DiffTables(c: string, universe: set<string>, before: Policy, after: Policy) returns (both: set<string>)
      modifies this
      ensures changes == old(changes) + TableChanges(c, universe, before, after)
      ensures notes == Noted(old(notes), TablesToggled(c), TablesNoted(before, after))
      ensures both == AllowedInBoth(universe, before, after)
    {
      if (before.allowedTables != {}) != (after.allowedTables != {}) {
        AddNote(TablesToggled(c));
      }
      var names := SortNames(universe);
      both := CompareTables(c, names, before, after);
      AllowedListed(universe, before, after);
    }

    method CompareTables(c: string, names: seq<string>, before: Policy, after: Policy) returns (both: set<string>)
      modifies this`changes
      ensures changes == old(changes) + FlatMap(names, ByTable(c, before, after))
      ensures both == AllowedAmong(names, before, after)
    {
      ghost var f := ByTable(c, before, after);
      both := {};
      var i := 0;
      while i < |names|
        invariant i <= |names|
        invariant both == AllowedAmong(names[..i], before, after)
        invariant changes == old(changes) + FlatMap(names[..i], f)
      {
        AllowedStep(names, i, before, after);
        Append(old(changes), names, f, i);
        var stays := CompareTable(c, names[i], before, after);
        if stays {
          both := both + {names[i]};
        }
        i := i + 1;
      }
      Whole(names);
    }

    method CompareTable(c: string, table: string, before: Policy, after: Policy) returns (stays: bool)
      modifies this`changes
      ensures changes == old(changes) + TableChange(c, before, after, table)
      ensures stays <==> TableAllowed(before, table) && TableAllowed(after, table)
    {
      var b, a := TableAllowed(before, table), TableAllowed(after, table);
      if b != a {
        Add(Change(TableAccess, c, Some(table), if a then Added else Removed, if a then Loosening else Tightening,
                   AccessWord(b), AccessWord(a)));
      }
      stays := b && a;
    }

    method DiffColumnsOf(c: string, table: string, before: Policy, after: Policy)
      modifies this`changes
      ensures changes == old(changes) + ColumnChangesOf(c, before, after, table)
    {
      ghost var f := ByColumn(c, before, after, table);
      var names := SortNames(NamedColumns(before, table) + NamedColumns(after, table));
      var i := 0;
      while i < |names|
        invariant i <= |names|
        invariant changes == old(changes) + FlatMap(names[..i], f)
      {
        var b, a := ColumnAllowed(before, table, names[i]), ColumnAllowed(after, table, names[i]);
        Append(old(changes), names, f, i);
        if b != a {
          Add(Change(ColumnAccess, c, Some(Dotted(table, names[i])), if a then Added else Removed,
                     if a then Loosening else Tightening, AccessWord(b), AccessWord(a)));
        }
        i := i + 1;
      }
      Whole(names);
    }

    method CompareColumns(c: string, names: seq<string>, before: Policy, after: Policy)
      modifies this`changes
      ensures changes == old(changes) + FlatMap(names, ByColumnTable(c, before, after))
    {
      ghost var f := ByColumnTable(c, before, after);
      var i := 0;
      while i < |names|
        invariant i <= |names|
        invariant changes == old(changes) + FlatMap(names[..i], f)
      {
        Append(old(changes), names, f, i);
        DiffColumnsOf(c, names[i], before, after);
        i := i + 1;
      }
      Whole(names);
    }

    method DiffColumns(c: string, tables: set<string>, before: Policy, after: Policy)
      modifies this
      ensures changes == old(changes) + ColumnChanges(c, tables, before, after)
      ensures notes == Noted(old(notes), ColumnsToggled(c), ColumnsNoted(before, after))
    {
      var names := SortNames(tables);
      CompareColumns(c, names, before, after);
      if (Entry(before.allowedColumns, WILDCARD) != {}) != (Entry(after.allowedColumns, WILDCARD) != {}) {
        AddNote(ColumnsToggled(c));
      }
    }

    method DiffFiltersOf(c: string, table: string, before: Policy, after: Policy)
      modifies this`changes
      ensures changes == old(changes) + FilterChangesOf(c, before, after, table)
    {
      ghost var f := ByFilter(c, before, after, table);
      var names := SortNames(FilterColumns(before, table) + FilterColumns(after, table));
      var i := 0;
      while i < |names|
        invariant i <= |names|
        invariant changes == old(changes) + FlatMap(names[..i], f)
      {
        var b, a := LastFilter(before.filters, table, names[i]), LastFilter(after.filters, table, names[i]);
        var what := Some(Dotted(table, names[i]));
        Append(old(changes), names, f, i);
        if b.Some? && a.None? {
          Add(Change(MandatoryFilter, c, what, Removed, Loosening, FilterSource(b.value), None));
        } else if b.None? && a.Some? {
          Add(Change(MandatoryFilter, c, what, Added, Tightening, None, FilterSource(a.value)));
        } else if b.Some? && a.Some? {
          if FilterSource(b.value) != FilterSource(a.value)
             || (b.value.claim.None? && a.value.claim.None? && b.value.value != a.value.value) {
            Add(Change(MandatoryFilter, c, what, Modified, Neutral, FilterSource(b.value), FilterSource(a.value)));
          }
        }
        i := i + 1;
      }
      Whole(names);
    }

    method DiffFilters(c: string, before: Policy, after: Policy)
      modifies this`changes
      ensures changes == old(changes) + FilterChanges(c, before, after)
    {
      var names := SortNames(FilterTables(before) + FilterTables(after));
      CompareFilters(c, names, before, after);
    }

    method CompareFilters(c: string, names: seq<string>, before: Policy, after: Policy)
      modifies this`changes
      ensures changes == old(changes) + FlatMap(names, ByFilterTable(c, before, after))
    {
      ghost var f := ByFilterTable(c, before, after);
      var i := 0;
      while i < |names|
        invariant i <= |names|
        invariant changes == old(changes) + FlatMap(names[..i], f)
      {
        Append(old(changes), names, f, i);
        DiffFiltersOf(c, names[i], before, after);
        i := i + 1;
      }
      Whole(names);
    }

    method DiffMasksOf(c: string, table: string, before: Policy, after: Policy)
      modifies this`changes
      ensures changes == old(changes) + MaskChangesOf(c, before, after, table)
    {
      ghost var f := ByMask(c, before, after, table);
      var names := SortNames(MaskedColumns(before, table) + MaskedColumns(after, table));
      var i := 0;
      while i < |names|
        invariant i <= |names|
        invariant changes == old(changes) + FlatMap(names[..i], f)
      {
        var b, a := ColumnMask(before, table, names[i]), ColumnMask(after, table, names[i]);
        var what := Some(Dotted(table, names[i]));
        Append(old(changes), names, f, i);
        if b != a {
          if b.Some? && a.None? {
            Add(Change(ColumnMasking, c, what, Removed, Loosening, MaskDisplay(b), None));
          } else if b.None? && a.Some? {
            Add(Change(ColumnMasking, c, what, Added, Tightening, None, MaskDisplay(a)));
          } else {
            Add(Change(ColumnMasking, c, what, Modified, Neutral, MaskDisplay(b), MaskDisplay(a)));
          }
        }
        i := i + 1;
      }
      Whole(names);
    }

    method DiffMasks(c: string, universe: set<string>, before: Policy, after: Policy)
      modifies this
      ensures changes == old(changes) + MaskChanges(c, universe, before, after)
      ensures notes == Noted(old(notes), WildcardMasks(c), MasksNoted(before, after))
    {
      if WILDCARD in before.masks || WILDCARD in after.masks {
        AddNote(WildcardMasks(c));
      }
      var names := SortNames(universe + (MaskTables(before) + MaskTables(after)));
      CompareMasks(c, names, before, after);
    }

    method CompareMasks(c: string, names: seq<string>, before: Policy, after: Policy)
      modifies this`changes
      ensures changes == old(changes) + FlatMap(names, ByMaskTable(c, before, after))
    {
      ghost var f := ByMaskTable(c, before, after);
      var i := 0;
      while i < |names|
        invariant i <= |names|
        invariant changes == old(changes) + FlatMap(names[..i], f)
      {
        Append(old(changes), names, f, i);
        DiffMasksOf(c, names[i], before, after);
        i := i + 1;
      }
      Whole(names);
    }

    method DiffPurposeLists(c: string, lost: set<string>, won: set<string>)
      modifies this`changes
      ensures changes == old(changes) + FlatMap(Listing(lost), ByRemovedPurpose(c)) + FlatMap(Listing(won), ByAddedPurpose(c))
    {
      var names := SortNames(lost);
      var i := 0;
      while i < |names|
        invariant i <= |names|
        invariant changes == old(changes) + FlatMap(names[..i], ByRemovedPurpose(c))
      {
        Append(old(changes), names, ByRemovedPurpose(c), i);
        Add(Change(PurposeAccess, c, Some(names[i]), Removed, Tightening, PermitWord(true), PermitWord(false)));
        i := i + 1;
      }
      Whole(names);
      ghost var so := changes;
      names := SortNames(won);
      i := 0;
      while i < |names|
        invariant i <= |names|
        invariant changes == so + FlatMap(names[..i], ByAddedPurpose(c))
      {
        Append(so, names, ByAddedPurpose(c), i);
        Add(Change(PurposeAccess, c, Some(names[i]), Added, Loosening, PermitWord(false), PermitWord(true)));
        i := i + 1;
      }
      Whole(names);
    }

    method DiffDeltas(c: string, before: Policy, after: Policy)
      modifies this`changes
      ensures changes == old(changes) + DeltaChanges(c, before, after)
    {
      ghost var f := ByDelta(c, before, after);
      var names := SortNames(before.purposePolicies.Keys + after.purposePolicies.Keys);
      var i := 0;
      while i < |names|
        invariant i <= |names|
        invariant changes == old(changes) + FlatMap(names[..i], f)
      {
        var b, a := DeltaAt(before, names[i]), DeltaAt(after, names[i]);
        Append(old(changes), names, f, i);
        if b != a {
          if b.Some? && a.None? {
            Add(Change(PurposeAccess, c, Some(names[i]), Removed, Loosening, DeltaWord(before, names[i]), None));
          } else if b.None? && a.Some? {
            Add(Change(PurposeAccess, c, Some(names[i]), Added, Tightening, None, DeltaWord(after, names[i])));
          } else {
            Add(Change(PurposeAccess, c, Some(names[i]), Modified, Neutral,
                       DeltaWord(before, names[i]), DeltaWord(after, names[i])));
          }
        }
        i := i + 1;
      }
      Whole(names);
    }

    method DiffPurposes(c: string, before: Policy, after: Policy)
      modifies this`changes
      ensures changes == old(changes) + PurposeChanges(c, before, after)
    {
      changes := changes + GateChange(c, before, after);
      DiffPurposeLists(c, before.purposes - after.purposes, after.purposes - before.purposes);
      DiffDeltas(c, before, after);
      ghost var lost := FlatMap(Listing(before.purposes - after.purposes), ByRemovedPurpose(c));
      ghost var won := FlatMap(Listing(after.purposes - before.purposes), ByAddedPurpose(c));
      Regroup4(old(changes), GateChange(c, before, after), lost, won, DeltaChanges(c, before, after));
    }

    /** Guardrails, tables and columns. */
    method DiffReach(c: string, u: set<string>, before: Policy, after: Policy, fields: seq<string>)
      modifies this
      ensures changes == old(changes) + GuardChanges(c, before, after, fields) + TableChanges(c, u, before, after)
                         + ColumnChanges(c, AllowedInBoth(u, before, after), before, after)
      ensures notes == Noted(Noted(old(notes), TablesToggled(c), TablesNoted(before, after)),
                             ColumnsToggled(c), ColumnsNoted(before, after))
    {
      DiffGuardrails(c, before, after, fields);
      var both := DiffTables(c, u, before, after);
      DiffColumns(c, both, before, after);
    }

    /** Row filters, masks and purposes. */
    method DiffContent(c: string, u: set<string>, before: Policy, after: Policy)
      modifies this
      ensures changes == old(changes) + FilterChanges(c, before, after) + MaskChanges(c, u, before, after)
                         + PurposeChanges(c, before, after)
      ensures notes == Noted(old(notes), WildcardMasks(c), MasksNoted(before, after))
    {
      DiffFilters(c, before, after);
      DiffMasks(c, u, before, after);
      DiffPurposes(c, before, after);
    }

    method DiffOver(c: string, u: set<string>, pb: Profile, before: Policy, pa: Profile, after: Policy, fields: seq<string>)
      modifies this
      ensures changes == old(changes) + GuardChanges(c, before, after, fields) + TableChanges(c, u, before, after)
                         + ColumnChanges(c, AllowedInBoth(u, before, after), before, after)
                         + FilterChanges(c, before, after) + MaskChanges(c, u, before, after)
                         + PurposeChanges(c, before, after) + JoinGroupChange(c, pb, pa)
      ensures notes == InnerNotes(old(notes), c, before, after)
    {
      DiffReach(c, u, before, after, fields);
      DiffContent(c, u, before, after);
      changes := changes + JoinGroupChange(c, pb, pa);
    }

    method DiffInside(c: string, pb: Profile, before: Policy, pa: Profile, after: Policy, fields: seq<string>)
      modifies this
      ensures changes == old(changes) + InnerChanges(c, pb, before, pa, after, fields)
      ensures notes == InnerNotes(old(notes), c, before, after)
    {
      InnerInOrder(changes, c, pb, before, pa, after, fields);
      DiffOver(c, NamedTables(pb, before) + NamedTables(pa, after), pb, before, pa, after, fields);
    }

    method DiffConnection(c: string, active: Context, candidate: Context, who: Option<string>, fields: seq<string>)
      modifies this
      ensures changes == old(changes) + ConnectionChanges(c, active, candidate, who, fields)
      ensures notes == ConnectionNotes(old(notes), c, active, candidate, who)
    {
      var before, after := Resolve(active.policies, c, who), Resolve(candidate.policies, c, who);
      if c in active.registry && c !in candidate.registry {
        Add(Change(ConnectionVisibility, c, None, Removed, Tightening, SightWord(Visible(active.registry[c], before)), ABSENT));
      } else if c in candidate.registry && c !in active.registry {
        var seen := Visible(candidate.registry[c], after);
        Add(Change(ConnectionVisibility, c, None, Added, if seen then Loosening else Neutral, ABSENT, SightWord(seen)));
      } else if c in active.registry {
        DiffShared(c, active.registry[c], before, candidate.registry[c], after, fields);
      }
    }

    method DiffSight(c: string, before: bool, after: bool)
      modifies this`changes
      ensures changes == old(changes) + SightChange(c, before, after)
    {
      if before != after {
        Add(Change(ConnectionVisibility, c, None, Modified, if after then Loosening else Tightening,
                   SightWord(before), SightWord(after)));
      }
    }

    method DiffShared(c: string, pb: Profile, before: Policy, pa: Profile, after: Policy, fields: seq<string>)
      modifies this
      ensures changes == old(changes) + SharedChanges(c, pb, before, pa, after, fields)
      ensures notes == if Visible(pb, before) && Visible(pa, after) then InnerNotes(old(notes), c, before, after) else old(notes)
    {
      DiffSight(c, Visible(pb, before), Visible(pa, after));
      if Visible(pb, before) && Visible(pa, after) {
        DiffInside(c, pb, before, pa, after, fields);
        Regroup(old(changes), SightChange(c, true, true), InnerChanges(c, pb, before, pa, after, fields));
      }
    }
  }

  method Summarize(changes: seq<Change>) returns (s: Summary)
    ensures s == Summarized(changes)
  {
    s := Summary(|changes|, 0, 0, 0);
    var i := 0;
    while i < |changes|
      invariant i <= |changes|
      invariant s == Summary(|changes|, CountOf(changes[..i], Loosening), CountOf(changes[..i], Tightening), CountOf(changes[..i], Neutral))
    {
      assert changes[..i + 1][..i] == changes[..i];
      match changes[i].direction {
        case Loosening => s := s.(loosening := s.loosening + 1);
        case Tightening => s := s.(tightening := s.tightening + 1);
        case Neutral => s := s.(neutral := s.neutral + 1);
      }
      i := i + 1;
    }
    Whole(changes);
  }

  lemma NotesStep(notes: seq<Note>, names: seq<string>, i: nat, active: Context, candidate: Context, who: Option<string>)
    requires i < |names|
    ensures NotesOver(notes, names[..i + 1], active, candidate, who) ==
            ConnectionNotes(NotesOver(notes, names[..i], active, candidate, who), names[i], active, candidate, who)
  {
    assert names[..i + 1][..i] == names[..i];
  }

  method CollectChanges(diff: Diff, names: seq<string>, active: Context, candidate: Context, who: Option<string>, fields: seq<string>)
    modifies diff
    ensures diff.changes == old(diff.changes) + FlatMap(names, ByConnection(active, candidate, who, fields))
    ensures diff.notes == NotesOver(old(diff.notes), names, active, candidate, who)
  {
    ghost var f := ByConnection(active, candidate, who, fields);
    var i := 0;
    while i < |names|
      invariant i <= |names|
      invariant diff.changes == old(diff.changes) + FlatMap(names[..i], f)
      invariant diff.notes == NotesOver(old(diff.notes), names[..i], active, candidate, who)
    {
      Append(old(diff.changes), names, f, i);
      NotesStep(old(diff.notes), names, i, active, candidate, who);
      diff.DiffConnection(names[i], active, candidate, who, fields);
      i := i + 1;
    }
    Whole(names);
  }

  method Finish(all: seq<Change>, notes: seq<Note>, max: nat) returns (r: Report)
    ensures r == Finished(all, notes, max)
  {
    SortPermutes(all, ChangeLe);
    var changes := Sort(all, ChangeLe);
    var reasons := notes;
    var truncated := false;
    if |changes| > max {
      truncated := true;
      changes := changes[..max];
      reasons := Noted(reasons, Truncated, true);
    }
    var summary := Summarize(changes);
    r := Report(changes, summary, reasons, truncated);
  }

  // `compute_access_diff`: the loops compute the specified report.
  method ComputeAccessDiff(active: Context, candidate: Context, who: Option<string>, fields: seq<string>, max: nat)
    returns (r: Report)
    ensures r == AccessReportOf(active, candidate, who, fields, max)
  {
    var diff := new Diff();
    if who.None? && active.policies.principals != candidate.policies.principals {
      diff.AddNote(OverridesChanged);
    }
    var names := SortNames(active.registry.Keys + candidate.registry.Keys);
    CollectChanges(diff, names, active, candidate, who, fields);
    assert diff.changes == AllChanges(active, candidate, who, fields);
    r := Finish(diff.changes, diff.notes, max);
  }
}
