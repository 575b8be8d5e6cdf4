// What the access diff can and cannot miss, over all table and column names,
// named by a policy or not.
module AccessCompleteness {
  import opened Json
  import opened PolicyModel
  import opened StableSort
  import opened AccessDiff
  import opened AccessDuality

  // ------------------------------------------------------------- tables

  lemma InListed(names: set<string>, f: string -> seq<Change>, ch: Change)
    ensures ch in FlatMap(Listing(names), f) <==> exists n :: n in names && ch in f(n)
  {
    ListingLists(names);
    InFlatMap(Listing(names), f, ch);
  }

  function AccessEntry(category: Category, c: string, what: string, after: bool): Change {
    Change(category, c, Some(what), if after then Added else Removed, if after then Loosening else Tightening,
           AccessWord(!after), AccessWord(after))
  }

  // The table entries are exactly the named tables whose accessibility changes,
  // each with the right direction.
  lemma TableEntriesExact(c: string, u: set<string>, b: Policy, a: Policy, t: string, after: bool)
    ensures AccessEntry(TableAccess, c, t, after) in TableChanges(c, u, b, a) <==>
            t in u && TableAllowed(b, t) == !after && TableAllowed(a, t) == after
  {
    var ch := AccessEntry(TableAccess, c, t, after);
    InListed(u, ByTable(c, b, a), ch);
    if t in u && TableAllowed(b, t) == !after && TableAllowed(a, t) == after {
      assert ch in ByTable(c, b, a)(t);
    }
  }

  function GuardEntry(c: string, b: Policy, a: Policy): Change {
    Change(Guardrail, c, Some(EXPLICIT), Modified, if a.explicitOnly then Tightening else Loosening,
           Some(Value(Switch(b.explicitOnly))), Some(Value(Switch(a.explicitOnly))))
  }

  lemma ExplicitFlagReported(c: string, b: Policy, a: Policy, fields: seq<string>)
    requires EXPLICIT in fields && b.explicitOnly != a.explicitOnly
    ensures GuardEntry(c, b, a) in GuardChanges(c, b, a, fields)
  {
    assert Inverted(EXPLICIT) && EXPLICIT != "log_query_literals" && EXPLICIT != "cost_estimation_mode";
    assert GuardEntry(c, b, a) in ByField(c, b, a)(EXPLICIT);
    InFlatMap(fields, ByField(c, b, a), GuardEntry(c, b, a));
  }

  /** The change to this table is neither listed nor covered by a note. */
  ghost predicate TableSilent(c: string, u: set<string>, b: Policy, a: Policy, t: string) {
    && TableAllowed(b, t) != TableAllowed(a, t)
    && AccessEntry(TableAccess, c, t, TableAllowed(a, t)) !in TableChanges(c, u, b, a)
    && !TablesNoted(b, a)
  }

  // Completeness over every table name: a change of accessibility is listed, or
  // covered by the note, except when the explicit-allowlist flag itself flips
  // over two empty allow-lists and the table is one no policy names; then the
  // flag's own guardrail entry reports it, in the same direction.
  lemma TableDiffComplete(c: string, pb: Profile, b: Policy, pa: Profile, a: Policy, fields: seq<string>, t: string)
    requires EXPLICIT in fields
    ensures var u := NamedTables(pb, b) + NamedTables(pa, a);
            && (TableSilent(c, u, b, a, t) <==>
                  t !in u && b.allowedTables == {} && a.allowedTables == {} && b.explicitOnly != a.explicitOnly)
            && (TableSilent(c, u, b, a, t) ==>
                  && GuardEntry(c, b, a) in GuardChanges(c, b, a, fields)
                  && (GuardEntry(c, b, a).direction.Loosening? <==> TableAllowed(a, t)))
  {
    var u := NamedTables(pb, b) + NamedTables(pa, a);
    TableEntriesExact(c, u, b, a, t, TableAllowed(a, t));
    if b.explicitOnly != a.explicitOnly {
      ExplicitFlagReported(c, b, a, fields);
    }
  }

  // ------------------------------------------------------------ columns

  /** What a column no policy names may do on this table. */
  predicate OpenColumns(p: Policy, t: string) {
    !HasColumnList(p, t) && !p.explicitOnly
  }

  predicate ColumnListed(b: Policy, a: Policy, t: string, col: string) {
    col in NamedColumns(b, t) + NamedColumns(a, t)
  }

  /** A compared column whose accessibility becomes `after`. */
  predicate ColumnMoves(tables: set<string>, b: Policy, a: Policy, t: string, col: string, after: bool) {
    && t in tables && ColumnListed(b, a, t, col)
    && ColumnAllowed(b, t, col) == !after && ColumnAllowed(a, t, col) == after
  }

  // The column entries are exactly the compared columns whose accessibility
  // changes, each with the right direction; a subject may stand for more than
  // one table and column only if they spell the same dotted name.
  lemma ColumnEntriesExact(c: string, tables: set<string>, b: Policy, a: Policy, what: string, after: bool)
    ensures AccessEntry(ColumnAccess, c, what, after) in ColumnChanges(c, tables, b, a) <==>
            exists t, col :: Dotted(t, col) == what && ColumnMoves(tables, b, a, t, col, after)
  {
    var ch := AccessEntry(ColumnAccess, c, what, after);
    InListed(tables, ByColumnTable(c, b, a), ch);
    forall t ensures ch in ByColumnTable(c, b, a)(t) <==>
                     exists col :: Dotted(t, col) == what && ColumnListed(b, a, t, col)
                                   && ColumnAllowed(b, t, col) == !after && ColumnAllowed(a, t, col) == after {
      ColumnEntriesOf(c, b, a, t, what, after);
    }
  }

  lemma ColumnEntriesOf(c: string, b: Policy, a: Policy, t: string, what: string, after: bool)
    ensures AccessEntry(ColumnAccess, c, what, after) in ColumnChangesOf(c, b, a, t) <==>
            exists col :: Dotted(t, col) == what && ColumnListed(b, a, t, col)
                          && ColumnAllowed(b, t, col) == !after && ColumnAllowed(a, t, col) == after
  {
    var ch := AccessEntry(ColumnAccess, c, what, after);
    InListed(NamedColumns(b, t) + NamedColumns(a, t), ByColumn(c, b, a, t), ch);
    forall col ensures ch in ByColumn(c, b, a, t)(col) <==>
                       Dotted(t, col) == what && ColumnAllowed(b, t, col) == !after && ColumnAllowed(a, t, col) == after {
      if Dotted(t, col) == what && ColumnAllowed(b, t, col) == !after && ColumnAllowed(a, t, col) == after {
        assert ch == ColumnChange(c, b, a, t, col)[0];
      }
    }
  }

  lemma ColumnEntryListed(c: string, tables: set<string>, b: Policy, a: Policy, t: string, col: string)
    requires t in tables && ColumnListed(b, a, t, col) && ColumnAllowed(b, t, col) != ColumnAllowed(a, t, col)
    ensures AccessEntry(ColumnAccess, c, Dotted(t, col), ColumnAllowed(a, t, col)) in ColumnChanges(c, tables, b, a)
  {
    assert ColumnMoves(tables, b, a, t, col, ColumnAllowed(a, t, col));
    ColumnEntriesExact(c, tables, b, a, Dotted(t, col), ColumnAllowed(a, t, col));
  }

  // With dot-free column names a dotted name is read in one way only.
  lemma DottedSplits(t: string, col: string, t': string, col': string)
    requires '.' !in col && '.' !in col' && Dotted(t, col) == Dotted(t', col')
    ensures t == t' && col == col'
  {
    var x := Dotted(t, col);
    if |col| < |col'| {
      DotInside(t, col, t', col');
    } else if |col'| < |col| {
      DotInside(t', col', t, col);
    } else {
      assert t == x[..|t|] && t' == x[..|t'|];
      assert col == x[|t| + 1..] && col' == x[|t'| + 1..];
    }
  }

  lemma DotInside(t: string, col: string, t': string, col': string)
    requires Dotted(t, col) == Dotted(t', col') && |col| < |col'|
    ensures '.' in col'
  {
    var x := Dotted(t, col);
    assert x[|t|] == '.' && |t| > |t'|;
    assert col'[|t| - |t'| - 1] == x[|t|];
  }

  lemma UnnamedColumn(p: Policy, t: string, col: string)
    requires col !in NamedColumns(p, t)
    ensures ColumnAllowed(p, t, col) <==> OpenColumns(p, t)
  {
  }

  /** A column changes, is not among those compared, and no note says so. */
  ghost predicate ColumnSilent(u: set<string>, b: Policy, a: Policy, t: string, col: string) {
    && ColumnAllowed(b, t, col) != ColumnAllowed(a, t, col)
    && !(t in u && ColumnListed(b, a, t, col))
    && !ColumnsNoted(b, a)
  }

  /** Some column a policy names changes on this table. */
  ghost predicate NamedColumnChanges(b: Policy, a: Policy, t: string) {
    exists col :: ColumnListed(b, a, t, col) && ColumnAllowed(b, t, col) != ColumnAllowed(a, t, col)
  }

  // Some column of a table changes silently exactly when the wildcard note does
  // not fire and either unnamed columns are open on one side only, or the table
  // itself is one no policy names and a column named for all tables changes.
  lemma ColumnGapIff(u: set<string>, b: Policy, a: Policy, t: string)
    ensures (exists col :: ColumnSilent(u, b, a, t, col)) <==>
            !ColumnsNoted(b, a) && (OpenColumns(b, t) != OpenColumns(a, t) || (t !in u && NamedColumnChanges(b, a, t)))
  {
    if !ColumnsNoted(b, a) && OpenColumns(b, t) != OpenColumns(a, t) {
      var col := NewName(NamedColumns(b, t) + NamedColumns(a, t));
      UnnamedColumn(b, t, col);
      UnnamedColumn(a, t, col);
      assert ColumnSilent(u, b, a, t, col);
    } else if !ColumnsNoted(b, a) && t !in u && NamedColumnChanges(b, a, t) {
      var col :| ColumnListed(b, a, t, col) && ColumnAllowed(b, t, col) != ColumnAllowed(a, t, col);
      assert ColumnSilent(u, b, a, t, col);
    }
    if exists col :: ColumnSilent(u, b, a, t, col) {
      var col :| ColumnSilent(u, b, a, t, col);
      if !ColumnListed(b, a, t, col) {
        UnnamedColumn(b, t, col);
        UnnamedColumn(a, t, col);
      }
    }
  }

  lemma NewName(names: set<string>) returns (x: string)
    ensures x !in names
  {
    var n := LongestName(names);
    x := seq(n + 1, _ => 'x');
  }

  lemma {:induction false} LongestName(names: set<string>) returns (n: nat)
    ensures forall x :: x in names ==> |x| <= n
    decreases names
  {
    if names == {} {
      n := 0;
    } else {
      var y := Pick(names);
      var m := LongestName(names - {y});
      n := if |y| > m then |y| else m;
    }
  }

  // ------------------------------------------------------- the gaps, shown

  // Widening the wildcard column list opens a column on every table; on a table
  // no policy names, nothing reports it.
  lemma WildcardColumnUnreported(u: set<string>, b: Policy, a: Policy, t: string, x: string, y: string)
    requires b.allowedColumns == map[WILDCARD := {x}] && a == b.(allowedColumns := map[WILDCARD := {x, y}])
    requires x != y && t !in u && t != WILDCARD && b.deniedColumns == map[]
    ensures ColumnSilent(u, b, a, t, y)
  {
  }

  lemma {:induction false} FlatMapEmpty<T>(names: seq<T>, f: T -> seq<Change>)
    requires forall n :: n in names ==> f(n) == []
    ensures FlatMap(names, f) == []
  {
    if names != [] {
      FlatMapEmpty(names[..|names| - 1], f);
    }
  }

  /** Dropping a table's column allow-list is the only difference. */
  predicate DropsColumnList(b: Policy, a: Policy, t: string, x: string) {
    && t != WILDCARD && b.allowedColumns == map[t := {x}]
    && a == b.(allowedColumns := map[]) && !b.explicitOnly && b.deniedColumns == map[] && b.filters == []
  }

  // Dropping a table's allow-list opens every other column of it, and the diff
  // of the whole connection is empty, with no note about columns.
  lemma DroppedListUnreported(c: string, pr: Profile, b: Policy, a: Policy, fields: seq<string>, t: string, x: string, col: string)
    requires DropsColumnList(b, a, t, x) && col != x
    ensures !ColumnAllowed(b, t, col) && ColumnAllowed(a, t, col)
    ensures InnerChanges(c, pr, b, pr, a, fields) == [] && !ColumnsNoted(b, a) && !TablesNoted(b, a)
  {
    DroppedListOpens(b, a, t, x, col);
    var u := NamedTables(pr, b) + NamedTables(pr, a);
    DroppedListOver(c, u, AllowedInBoth(u, b, a), pr, b, a, fields, t, x);
  }

  lemma DroppedListOpens(b: Policy, a: Policy, t: string, x: string, col: string)
    requires DropsColumnList(b, a, t, x) && col != x
    ensures !ColumnAllowed(b, t, col) && ColumnAllowed(a, t, col) && !ColumnsNoted(b, a)
  {
  }

  lemma DroppedListOver(c: string, u: set<string>, both: set<string>, pr: Profile, b: Policy, a: Policy, fields: seq<string>,
                        t: string, x: string)
    requires DropsColumnList(b, a, t, x)
    ensures Concat([GuardChanges(c, b, a, fields), TableChanges(c, u, b, a), ColumnChanges(c, both, b, a),
                    FilterChanges(c, b, a), MaskChanges(c, u, b, a), PurposeChanges(c, b, a), JoinGroupChange(c, pr, pr)]) == []
  {
    DroppedListElsewhere(c, u, b, a, fields);
    DroppedListColumns(c, both, b, a, t, x);
    ConcatEmpty([[], [], [], [], [], [], []]);
  }

  // Policies that differ in denied tables only: nothing but tables is reported.
  lemma DeniedOnly(c: string, pr: Profile, b: Policy, a: Policy, fields: seq<string>)
    requires a == b.(deniedTables := a.deniedTables)
    ensures InnerChanges(c, pr, b, pr, a, fields) == TableChanges(c, NamedTables(pr, b) + NamedTables(pr, a), b, a)
  {
    var u := NamedTables(pr, b) + NamedTables(pr, a);
    DeniedOnlyOver(c, u, AllowedInBoth(u, b, a), pr, b, a, fields);
  }

  lemma DeniedOnlyOver(c: string, u: set<string>, both: set<string>, pr: Profile, b: Policy, a: Policy, fields: seq<string>)
    requires a == b.(deniedTables := a.deniedTables)
    ensures Concat([GuardChanges(c, b, a, fields), TableChanges(c, u, b, a), ColumnChanges(c, both, b, a),
                    FilterChanges(c, b, a), MaskChanges(c, u, b, a), PurposeChanges(c, b, a), JoinGroupChange(c, pr, pr)]) ==
            TableChanges(c, u, b, a)
  {
    DeniedOnlyElsewhere(c, u, both, b, a, fields);
    ConcatOnly([[], TableChanges(c, u, b, a), [], [], [], [], []], 1);
  }

  lemma DeniedOnlyElsewhere(c: string, u: set<string>, both: set<string>, b: Policy, a: Policy, fields: seq<string>)
    requires a == b.(deniedTables := a.deniedTables)
    ensures GuardChanges(c, b, a, fields) == [] && ColumnChanges(c, both, b, a) == []
    ensures FilterChanges(c, b, a) == [] && MaskChanges(c, u, b, a) == [] && PurposeChanges(c, b, a) == []
  {
    FlatMapEmpty(fields, ByField(c, b, a));
    SameColumnsEmpty(c, both, b, a);
    SameFiltersEmpty(c, b, a);
    SameMasksEmpty(c, u, b, a);
    SamePurposesEmpty(c, b, a);
  }

  lemma {:induction false} ConcatOnly(parts: seq<seq<Change>>, k: nat)
    requires k < |parts| && forall i :: 0 <= i < |parts| && i != k ==> parts[i] == []
    ensures Concat(parts) == parts[k]
  {
    var n := |parts| - 1;
    if k < n {
      ConcatOnly(parts[..n], k);
    } else {
      ConcatEmpty(parts[..n]);
    }
  }

  lemma SameColumnsEmpty(c: string, tables: set<string>, b: Policy, a: Policy)
    requires a == b.(deniedTables := a.deniedTables)
    ensures ColumnChanges(c, tables, b, a) == []
  {
    forall s ensures ByColumnTable(c, b, a)(s) == [] {
      FlatMapEmpty(Listing(NamedColumns(b, s) + NamedColumns(a, s)), ByColumn(c, b, a, s));
    }
    FlatMapEmpty(Listing(tables), ByColumnTable(c, b, a));
  }

  // Two policies that differ in column allow-lists only.
  lemma DroppedListElsewhere(c: string, u: set<string>, b: Policy, a: Policy, fields: seq<string>)
    requires a == b.(allowedColumns := map[])
    ensures GuardChanges(c, b, a, fields) == [] && TableChanges(c, u, b, a) == [] && FilterChanges(c, b, a) == []
    ensures MaskChanges(c, u, b, a) == [] && PurposeChanges(c, b, a) == []
  {
    FlatMapEmpty(fields, ByField(c, b, a));
    FlatMapEmpty(Listing(u), ByTable(c, b, a));
    SameFiltersEmpty(c, b, a);
    SameMasksEmpty(c, u, b, a);
    SamePurposesEmpty(c, b, a);
  }

  lemma {:induction false} ConcatEmpty(parts: seq<seq<Change>>)
    requires forall i :: 0 <= i < |parts| ==> parts[i] == []
    ensures Concat(parts) == []
  {
    if parts != [] {
      ConcatEmpty(parts[..|parts| - 1]);
    }
  }

  lemma DroppedListColumns(c: string, tables: set<string>, b: Policy, a: Policy, t: string, x: string)
    requires DropsColumnList(b, a, t, x)
    ensures ColumnChanges(c, tables, b, a) == []
  {
    forall s ensures ByColumnTable(c, b, a)(s) == [] {
      var named := NamedColumns(b, s) + NamedColumns(a, s);
      ListingLists(named);
      forall col | col in Listing(named) ensures ByColumn(c, b, a, s)(col) == [] {
        assert s == t && col == x;
      }
      FlatMapEmpty(Listing(named), ByColumn(c, b, a, s));
    }
    FlatMapEmpty(Listing(tables), ByColumnTable(c, b, a));
  }

  lemma SameFiltersEmpty(c: string, b: Policy, a: Policy)
    requires b.filters == a.filters
    ensures FilterChanges(c, b, a) == []
  {
    forall s ensures ByFilterTable(c, b, a)(s) == [] {
      FlatMapEmpty(Listing(FilterColumns(b, s) + FilterColumns(a, s)), ByFilter(c, b, a, s));
    }
    FlatMapEmpty(Listing(FilterTables(b) + FilterTables(a)), ByFilterTable(c, b, a));
  }

  lemma SameMasksEmpty(c: string, u: set<string>, b: Policy, a: Policy)
    requires b.masks == a.masks
    ensures MaskChanges(c, u, b, a) == []
  {
    forall s ensures ByMaskTable(c, b, a)(s) == [] {
      FlatMapEmpty(Listing(MaskedColumns(b, s) + MaskedColumns(a, s)), ByMask(c, b, a, s));
    }
    FlatMapEmpty(Listing(u + (MaskTables(b) + MaskTables(a))), ByMaskTable(c, b, a));
  }

  lemma SamePurposesEmpty(c: string, b: Policy, a: Policy)
    requires b.purposes == a.purposes && b.purposePolicies == a.purposePolicies
    ensures PurposeChanges(c, b, a) == []
  {
    assert b.purposes - a.purposes == {} && a.purposes - b.purposes == {};
    FlatMapEmpty(Listing(b.purposePolicies.Keys + a.purposePolicies.Keys), ByDelta(c, b, a));
  }

  // --------------------------------------------------- masks and filters

  function MaskEntry(c: string, b: Policy, a: Policy, t: string, col: string): Change
    requires ColumnMask(b, t, col) != ColumnMask(a, t, col)
  {
    var mb, ma := ColumnMask(b, t, col), ColumnMask(a, t, col);
    if ma.None? then Gone(ColumnMasking, c, Dotted(t, col), MaskDisplay(mb))
    else if mb.None? then Came(ColumnMasking, c, Dotted(t, col), MaskDisplay(ma))
    else Change(ColumnMasking, c, Some(Dotted(t, col)), Modified, Neutral, MaskDisplay(mb), MaskDisplay(ma))
  }

  lemma MaskChangeIs(c: string, b: Policy, a: Policy, t: string, col: string)
    requires ColumnMask(b, t, col) != ColumnMask(a, t, col)
    ensures MaskChange(c, b, a, t, col) == [MaskEntry(c, b, a, t, col)]
  {
  }

  lemma {:induction false} FirstMaskNamed(masks: seq<Mask>, col: string)
    requires FirstMask(masks, col).Some?
    ensures col in ColumnsOf(masks)
  {
    if masks[0].column != col {
      FirstMaskNamed(masks[1..], col);
    }
  }

  lemma UnnamedUnmasked(p: Policy, t: string, col: string)
    requires col !in MaskedColumns(p, t)
    ensures ColumnMask(p, t, col).None?
  {
    if MaskIn(p, t, col).Some? {
      FirstMaskNamed(p.masks[t], col);
    }
    if MaskIn(p, WILDCARD, col).Some? {
      FirstMaskNamed(p.masks[WILDCARD], col);
    }
  }

  /** The tables whose masks are compared. */
  function MaskUniverse(u: set<string>, b: Policy, a: Policy): set<string> {
    u + (MaskTables(b) + MaskTables(a))
  }

  lemma MaskedIsNamed(b: Policy, a: Policy, t: string, col: string)
    requires ColumnMask(b, t, col) != ColumnMask(a, t, col)
    ensures col in MaskedColumns(b, t) + MaskedColumns(a, t)
  {
    if col !in MaskedColumns(b, t) {
      UnnamedUnmasked(b, t, col);
    }
    if col !in MaskedColumns(a, t) {
      UnnamedUnmasked(a, t, col);
    }
  }

  // Masks, over every table and column: an effective mask that changes on a
  // compared table is listed, losing one as loosening and gaining one as
  // tightening; on any other table the wildcard note covers it.
  lemma MaskDiffComplete(c: string, u: set<string>, b: Policy, a: Policy, t: string, col: string)
    requires ColumnMask(b, t, col) != ColumnMask(a, t, col)
    ensures t in MaskUniverse(u, b, a) ==> MaskEntry(c, b, a, t, col) in MaskChanges(c, u, b, a)
    ensures t !in MaskUniverse(u, b, a) ==> MasksNoted(b, a)
  {
    if t in MaskUniverse(u, b, a) {
      var ch := MaskEntry(c, b, a, t, col);
      MaskedIsNamed(b, a, t, col);
      MaskChangeIs(c, b, a, t, col);
      assert ch in ByMask(c, b, a, t)(col);
      InListed(MaskedColumns(b, t) + MaskedColumns(a, t), ByMask(c, b, a, t), ch);
      assert ch in ByMaskTable(c, b, a)(t);
      InListed(MaskUniverse(u, b, a), ByMaskTable(c, b, a), ch);
    }
  }

  ghost predicate DotFreeMasks(p: Policy) {
    forall t, col :: col in MaskedColumns(p, t) ==> '.' !in col
  }

  // With dot-free column names a changed mask is listed exactly when its table
  // is among those compared.
  lemma MaskListedIff(c: string, u: set<string>, b: Policy, a: Policy, t: string, col: string)
    requires ColumnMask(b, t, col) != ColumnMask(a, t, col) && DotFreeMasks(b) && DotFreeMasks(a)
    ensures MaskEntry(c, b, a, t, col) in MaskChanges(c, u, b, a) <==> t in MaskUniverse(u, b, a)
  {
    MaskDiffComplete(c, u, b, a, t, col);
    MaskedIsNamed(b, a, t, col);
    if MaskEntry(c, b, a, t, col) in MaskChanges(c, u, b, a) {
      var t', col' := MaskEntryOrigin(c, u, b, a, MaskEntry(c, b, a, t, col));
      SameColumnName(b, a, t, col, t', col');
    }
  }

  // Every mask entry comes from a compared table and a masked column of it.
  lemma MaskEntryOrigin(c: string, u: set<string>, b: Policy, a: Policy, ch: Change) returns (t: string, col: string)
    requires ch in MaskChanges(c, u, b, a)
    ensures t in MaskUniverse(u, b, a) && col in MaskedColumns(b, t) + MaskedColumns(a, t) && ch.subject == Some(Dotted(t, col))
  {
    t := FromListed(MaskUniverse(u, b, a), ByMaskTable(c, b, a), ch);
    col := MaskEntryColumn(c, b, a, t, ch);
  }

  lemma MaskEntryColumn(c: string, b: Policy, a: Policy, t: string, ch: Change) returns (col: string)
    requires ch in MaskChangesOf(c, b, a, t)
    ensures col in MaskedColumns(b, t) + MaskedColumns(a, t) && ch.subject == Some(Dotted(t, col))
  {
    col := FromListed(MaskedColumns(b, t) + MaskedColumns(a, t), ByMask(c, b, a, t), ch);
    assert ch in MaskChange(c, b, a, t, col);
  }

  lemma FromListed(names: set<string>, f: string -> seq<Change>, ch: Change) returns (n: string)
    requires ch in FlatMap(Listing(names), f)
    ensures n in names && ch in f(n)
  {
    InListed(names, f, ch);
    n :| n in names && ch in f(n);
  }

  lemma SameColumnName(b: Policy, a: Policy, t: string, col: string, t': string, col': string)
    requires DotFreeMasks(b) && DotFreeMasks(a) && Dotted(t, col) == Dotted(t', col')
    requires col in MaskedColumns(b, t) + MaskedColumns(a, t) && col' in MaskedColumns(b, t') + MaskedColumns(a, t')
    ensures t == t' && col == col'
  {
    DottedSplits(t, col, t', col');
  }

  lemma {:induction false} LastFilterNamed(filters: seq<RowFilter>, t: string, col: string)
    requires LastFilter(filters, t, col).Some?
    ensures exists f :: f in filters && f.table == t && f.column == col
  {
    var n := |filters| - 1;
    if filters[n].table == t && filters[n].column == col {
      assert filters[n] in filters;
    } else {
      LastFilterNamed(filters[..n], t, col);
      var f :| f in filters[..n] && f.table == t && f.column == col;
      assert f in filters;
    }
  }

  /** The entry a changed row filter should get. */
  function FilterEntry(c: string, what: string, b: Option<RowFilter>, a: Option<RowFilter>): Change
    requires b.Some? || a.Some?
  {
    if a.None? then Gone(MandatoryFilter, c, what, FilterSource(b.value))
    else if b.None? then Came(MandatoryFilter, c, what, FilterSource(a.value))
    else Change(MandatoryFilter, c, Some(what), Modified, Neutral, FilterSource(b.value), FilterSource(a.value))
  }

  predicate FilterDiffers(b: Option<RowFilter>, a: Option<RowFilter>) {
    b.Some? != a.Some? || (b.Some? && a.Some? && !SameFilter(b.value, a.value))
  }

  lemma FilterDifferenceIs(c: string, what: string, b: Option<RowFilter>, a: Option<RowFilter>)
    ensures FilterDifference(c, what, b, a) == if FilterDiffers(b, a) then [FilterEntry(c, what, b, a)] else []
  {
  }

  // Row filters, over every table and column: a filter that goes is reported as
  // loosening, one that comes as tightening, and one that changes its source or
  // its static value as neutral.
  lemma FilterDiffComplete(c: string, b: Policy, a: Policy, t: string, col: string)
    requires FilterDiffers(LastFilter(b.filters, t, col), LastFilter(a.filters, t, col))
    ensures FilterEntry(c, Dotted(t, col), LastFilter(b.filters, t, col), LastFilter(a.filters, t, col)) in FilterChanges(c, b, a)
  {
    var fb, fa := LastFilter(b.filters, t, col), LastFilter(a.filters, t, col);
    var ch := FilterEntry(c, Dotted(t, col), fb, fa);
    if fb.Some? {
      LastFilterNamed(b.filters, t, col);
    } else {
      LastFilterNamed(a.filters, t, col);
    }
    assert col in FilterColumns(b, t) + FilterColumns(a, t);
    FilterDifferenceIs(c, Dotted(t, col), fb, fa);
    assert ch in ByFilter(c, b, a, t)(col);
    InListed(FilterColumns(b, t) + FilterColumns(a, t), ByFilter(c, b, a, t), ch);
    assert ch in ByFilterTable(c, b, a)(t) && t in FilterTables(b) + FilterTables(a);
    InListed(FilterTables(b) + FilterTables(a), ByFilterTable(c, b, a), ch);
  }

  // ------------------------------------------------ guardrails and purposes

  function CapDirection(field: string, before: real, after: real): Direction {
    if before == after then Neutral
    else if (before < after) == Inverted(field) then Tightening
    else Loosening
  }

  predicate PlainCap(field: string) {
    field != "log_query_literals" && field != "cost_estimation_mode"
  }

  // A cap that moves is reported; raising it loosens, except for the few caps
  // that run the other way.
  lemma CapReported(c: string, b: Policy, a: Policy, fields: seq<string>, field: string, m: real, n: real)
    requires field in fields && PlainCap(field)
    requires GuardOf(b, field) == Number(m) && GuardOf(a, field) == Number(n) && m != n
    ensures Change(Guardrail, c, Some(field), Modified, CapDirection(field, m, n), Some(Value(Number(m))), Some(Value(Number(n))))
            in GuardChanges(c, b, a, fields)
  {
    var ch := Change(Guardrail, c, Some(field), Modified, CapDirection(field, m, n), Some(Value(Number(m))), Some(Value(Number(n))));
    assert ch in ByField(c, b, a)(field);
    InFlatMap(fields, ByField(c, b, a), ch);
  }

  // Dropping a cap altogether is reported as loosening, setting one as tightening.
  lemma UncappedReported(c: string, b: Policy, a: Policy, fields: seq<string>, field: string)
    requires field in fields && PlainCap(field) && GuardOf(b, field).Unset? != GuardOf(a, field).Unset?
    ensures Change(Guardrail, c, Some(field), Modified, if GuardOf(a, field).Unset? then Loosening else Tightening,
                   Some(Value(GuardOf(b, field))), Some(Value(GuardOf(a, field)))) in GuardChanges(c, b, a, fields)
  {
    var ch := Change(Guardrail, c, Some(field), Modified, if GuardOf(a, field).Unset? then Loosening else Tightening,
                     Some(Value(GuardOf(b, field))), Some(Value(GuardOf(a, field))));
    assert ch in ByField(c, b, a)(field);
    InFlatMap(fields, ByField(c, b, a), ch);
  }

  lemma InPurposes(c: string, b: Policy, a: Policy, ch: Change)
    ensures ch in PurposeChanges(c, b, a) <==>
            || ch in GateChange(c, b, a)
            || ch in FlatMap(Listing(b.purposes - a.purposes), ByRemovedPurpose(c))
            || ch in FlatMap(Listing(a.purposes - b.purposes), ByAddedPurpose(c))
            || ch in DeltaChanges(c, b, a)
  {
  }

  // Every purpose that is no longer or newly permitted is reported, and so is
  // the gate itself when it is switched on or off.
  lemma PurposeDiffComplete(c: string, b: Policy, a: Policy, p: string)
    ensures p in b.purposes && p !in a.purposes ==> PurposeRemoved(c, p)[0] in PurposeChanges(c, b, a)
    ensures p !in b.purposes && p in a.purposes ==> PurposeAdded(c, p)[0] in PurposeChanges(c, b, a)
    ensures (b.purposes == {}) != (a.purposes == {}) ==>
              Change(PurposeAccess, c, None, Modified, if b.purposes == {} then Tightening else Loosening, GateWord(b), GateWord(a))
              in PurposeChanges(c, b, a)
  {
    if p in b.purposes && p !in a.purposes {
      assert PurposeRemoved(c, p)[0] in ByRemovedPurpose(c)(p);
      InListed(b.purposes - a.purposes, ByRemovedPurpose(c), PurposeRemoved(c, p)[0]);
      InPurposes(c, b, a, PurposeRemoved(c, p)[0]);
    }
    if p !in b.purposes && p in a.purposes {
      assert PurposeAdded(c, p)[0] in ByAddedPurpose(c)(p);
      InListed(a.purposes - b.purposes, ByAddedPurpose(c), PurposeAdded(c, p)[0]);
      InPurposes(c, b, a, PurposeAdded(c, p)[0]);
    }
    if (b.purposes == {}) != (a.purposes == {}) {
      InPurposes(c, b, a, GateChange(c, b, a)[0]);
    }
  }

  // Any guardrail field that differs is reported with what it was and becomes;
  // raising its permissiveness loosens, lowering it tightens.
  lemma GuardReported(c: string, b: Policy, a: Policy, fields: seq<string>, field: string)
    requires field in fields && GuardOf(b, field) != GuardOf(a, field)
    ensures Change(Guardrail, c, Some(field), Modified, Compare(field, GuardOf(b, field), GuardOf(a, field)),
                   Some(Value(GuardOf(b, field))), Some(Value(GuardOf(a, field)))) in GuardChanges(c, b, a, fields)
  {
    var ch := GuardChange(c, b, a, field)[0];
    assert ch in ByField(c, b, a)(field);
    InFlatMap(fields, ByField(c, b, a), ch);
  }

  // The two fields that are no caps: logging literals loosens, and so does only
  // observing the cost of a query.
  lemma SpecialGuards(on: bool, off: bool)
    ensures Compare("log_query_literals", Switch(off), Switch(on)) ==
            if on == off then Neutral else if on then Loosening else Tightening
    ensures Compare("cost_estimation_mode", CostMode(off), CostMode(on)) ==
            if on == off then Neutral else if on then Loosening else Tightening
  {
  }

  // Approval labels that change are reported: more of them is tightening, fewer
  // loosening.
  lemma LabelsReported(c: string, b: Policy, a: Policy, fields: seq<string>)
    requires AsSet(b.sensitivities) != AsSet(a.sensitivities)
    ensures var nb, na := |b.sensitivities|, |a.sensitivities|;
            Change(Guardrail, c, Some("approval_sensitivities"), Modified,
                   if na > nb then Tightening else if na < nb then Loosening else Neutral,
                   Some(Labels(Sort(b.sensitivities, NameLe))), Some(Labels(Sort(a.sensitivities, NameLe))))
            in GuardChanges(c, b, a, fields)
  {
    assert SensitivityChange(c, b, a)[0] in SensitivityChange(c, b, a);
  }

  /** The entry a changed narrowing of a purpose should get. */
  function DeltaEntry(c: string, purpose: string, b: Option<Delta>, a: Option<Delta>): Change
    requires b != a
  {
    var configured := Some(Word("narrowing configured"));
    if a.None? then Gone(PurposeAccess, c, purpose, configured)
    else if b.None? then Came(PurposeAccess, c, purpose, configured)
    else Change(PurposeAccess, c, Some(purpose), Modified, Neutral, configured, configured)
  }

  // A purpose's narrowing that goes is reported as loosening, one that comes as
  // tightening, and one that changes as neutral.
  lemma DeltaDiffComplete(c: string, b: Policy, a: Policy, purpose: string)
    requires DeltaAt(b, purpose) != DeltaAt(a, purpose)
    ensures DeltaEntry(c, purpose, DeltaAt(b, purpose), DeltaAt(a, purpose)) in PurposeChanges(c, b, a)
  {
    var ch := DeltaEntry(c, purpose, DeltaAt(b, purpose), DeltaAt(a, purpose));
    assert ch in ByDelta(c, b, a)(purpose);
    InListed(b.purposePolicies.Keys + a.purposePolicies.Keys, ByDelta(c, b, a), ch);
    InPurposes(c, b, a, ch);
  }
}
