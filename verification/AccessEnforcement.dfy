// What the access diff compares against what is enforced at request time: row
// filters, join groups, purposes and writes.
module AccessEnforcement {
  import opened Json
  import opened PolicyModel
  import opened StableSort
  import opened AccessDiff
  import opened AccessDuality
  import opened AccessCompleteness

  // ---------------------------------------------------------- row filters

  /** What a row filter compares its column with. */
  datatype Rule = FromClaim(name: string) | Static(value: Option<string>)

  function RuleOf(f: RowFilter): Rule {
    if f.claim.Some? then FromClaim(f.claim.value) else Static(f.value)
  }

  predicate OnColumn(f: RowFilter, t: string, col: string) {
    f.table == t && f.column == col
  }

  /** Every filter of the list is ANDed into a query, so all of these apply. */
  function Enforced(p: Policy, t: string, col: string): set<Rule> {
    set f | f in p.filters && OnColumn(f, t, col) :: RuleOf(f)
  }

  /** The one rule the diff looks at. */
  function LastRule(p: Policy, t: string, col: string): Option<Rule> {
    var f := LastFilter(p.filters, t, col);
    if f.Some? then Some(RuleOf(f.value)) else None
  }

  /** Rules that apply although a later filter on the column hides them from the diff. */
  function Shadowed(p: Policy, t: string, col: string): set<Rule> {
    var last := LastRule(p, t, col);
    if last.Some? then Enforced(p, t, col) - {last.value} else {}
  }

  lemma SameFilterIff(b: RowFilter, a: RowFilter)
    ensures SameFilter(b, a) <==> RuleOf(b) == RuleOf(a)
  {
    if b.claim.Some? && a.claim.Some? {
      assert ("claim:" + b.claim.value)[6..] == b.claim.value && ("claim:" + a.claim.value)[6..] == a.claim.value;
    } else if b.claim.Some? {
      assert ("claim:" + b.claim.value)[1] == 'l' && "configured_literal"[1] == 'o';
    } else if a.claim.Some? {
      assert ("claim:" + a.claim.value)[1] == 'l' && "configured_literal"[1] == 'o';
    }
  }

  lemma FilterDiffersIff(b: Policy, a: Policy, t: string, col: string)
    ensures FilterDiffers(LastFilter(b.filters, t, col), LastFilter(a.filters, t, col)) <==> LastRule(b, t, col) != LastRule(a, t, col)
  {
    var fb, fa := LastFilter(b.filters, t, col), LastFilter(a.filters, t, col);
    if fb.Some? && fa.Some? {
      SameFilterIff(fb.value, fa.value);
    }
  }

  // A filter change is listed exactly when the last rule changes.
  lemma FilterListedIff(c: string, b: Policy, a: Policy, t: string, col: string)
    ensures FilterChange(c, b, a, t, col) != [] <==> LastRule(b, t, col) != LastRule(a, t, col)
  {
    FilterDiffersIff(b, a, t, col);
    FilterDifferenceIs(c, Dotted(t, col), LastFilter(b.filters, t, col), LastFilter(a.filters, t, col));
  }

  lemma {:induction false} LastFilterIn(filters: seq<RowFilter>, t: string, col: string)
    ensures LastFilter(filters, t, col).Some? ==>
              LastFilter(filters, t, col).value in filters && OnColumn(LastFilter(filters, t, col).value, t, col)
    ensures LastFilter(filters, t, col).None? ==> forall f :: f in filters ==> !OnColumn(f, t, col)
  {
    if filters != [] {
      var n := |filters| - 1;
      LastFilterIn(filters[..n], t, col);
      assert filters == filters[..n] + [filters[n]];
    }
  }

  lemma LastIsEnforced(p: Policy, t: string, col: string)
    ensures LastRule(p, t, col).None? <==> Enforced(p, t, col) == {}
    ensures LastRule(p, t, col).Some? ==> LastRule(p, t, col).value in Enforced(p, t, col)
  {
    LastFilterIn(p.filters, t, col);
    var f := LastFilter(p.filters, t, col);
    if f.Some? {
      assert RuleOf(f.value) in Enforced(p, t, col);
    }
  }

  // Over every table and column: what is enforced changes with nothing listed
  // exactly when the last rules agree and the rules they hide differ. A listed
  // change that alters nothing needs two rules whose order was turned round.
  lemma FilterGapIff(c: string, b: Policy, a: Policy, t: string, col: string)
    ensures Enforced(b, t, col) != Enforced(a, t, col) && FilterChange(c, b, a, t, col) == [] <==>
            LastRule(b, t, col) == LastRule(a, t, col) && Shadowed(b, t, col) != Shadowed(a, t, col)
    ensures Enforced(b, t, col) == Enforced(a, t, col) && FilterChange(c, b, a, t, col) != [] ==>
              Shadowed(b, t, col) != {} && Shadowed(a, t, col) != {}
  {
    FilterListedIff(c, b, a, t, col);
    LastIsEnforced(b, t, col);
    LastIsEnforced(a, t, col);
    var lb, la := LastRule(b, t, col), LastRule(a, t, col);
    if lb == la && lb.Some? {
      assert Enforced(b, t, col) == Shadowed(b, t, col) + {lb.value};
      assert Enforced(a, t, col) == Shadowed(a, t, col) + {la.value};
    }
    if lb != la && Enforced(b, t, col) == Enforced(a, t, col) {
      assert la.value in Shadowed(b, t, col) && lb.value in Shadowed(a, t, col);
    }
  }

  /** At most one filter per table and column. */
  ghost predicate OnePerColumn(p: Policy) {
    forall f, g :: f in p.filters && g in p.filters && f.table == g.table && f.column == g.column ==> f == g
  }

  // So with at most one filter per table and column the diff is exact.
  lemma OnePerColumnExact(c: string, b: Policy, a: Policy, t: string, col: string)
    requires OnePerColumn(b) && OnePerColumn(a)
    ensures Enforced(b, t, col) != Enforced(a, t, col) <==> FilterChange(c, b, a, t, col) != []
  {
    NothingShadowed(b, t, col);
    NothingShadowed(a, t, col);
    FilterGapIff(c, b, a, t, col);
  }

  lemma NothingShadowed(p: Policy, t: string, col: string)
    requires OnePerColumn(p)
    ensures Shadowed(p, t, col) == {}
  {
    LastFilterIn(p.filters, t, col);
  }

  // A column that loses its last filter is reported as loosening, one that gets
  // its first as tightening, whatever was hidden before.
  lemma FirstAndLastFilter(c: string, b: Policy, a: Policy, t: string, col: string)
    ensures Enforced(b, t, col) != {} && Enforced(a, t, col) == {} ==>
              LastFilter(b.filters, t, col).Some? &&
              Gone(MandatoryFilter, c, Dotted(t, col), FilterSource(LastFilter(b.filters, t, col).value)) in FilterChanges(c, b, a)
    ensures Enforced(b, t, col) == {} && Enforced(a, t, col) != {} ==>
              LastFilter(a.filters, t, col).Some? &&
              Came(MandatoryFilter, c, Dotted(t, col), FilterSource(LastFilter(a.filters, t, col).value)) in FilterChanges(c, b, a)
  {
    LastIsEnforced(b, t, col);
    LastIsEnforced(a, t, col);
    if (Enforced(b, t, col) == {}) != (Enforced(a, t, col) == {}) {
      FilterDiffComplete(c, b, a, t, col);
    }
  }

  // ---------------------------------------------- what the diff does not read

  /** The policies agree but for what no comparison looks at. */
  ghost predicate SameWhereRead(b: Policy, a: Policy) {
    && a == b.(filters := a.filters, joinGroup := a.joinGroup, writes := a.writes)
    && forall t, col :: LastRule(b, t, col) == LastRule(a, t, col)
  }

  // Policies that differ only in hidden row filters, in the join group of the
  // policy and in writes: the whole connection diff is empty, with no note that
  // the unchanged part does not give rise to.
  lemma UnreadUnreported(c: string, pr: Profile, b: Policy, a: Policy, fields: seq<string>)
    requires SameWhereRead(b, a)
    ensures InnerChanges(c, pr, b, pr, a, fields) == []
    ensures !TablesNoted(b, a) && !ColumnsNoted(b, a) && (MasksNoted(b, a) <==> WILDCARD in b.masks)
  {
    var u := NamedTables(pr, b) + NamedTables(pr, a);
    UnreadOver(c, u, AllowedInBoth(u, b, a), pr, b, a, fields);
  }

  lemma UnreadOver(c: string, u: set<string>, both: set<string>, pr: Profile, b: Policy, a: Policy, fields: seq<string>)
    requires SameWhereRead(b, a)
    ensures Concat([GuardChanges(c, b, a, fields), TableChanges(c, u, b, a), ColumnChanges(c, both, b, a),
                    FilterChanges(c, b, a), MaskChanges(c, u, b, a), PurposeChanges(c, b, a), JoinGroupChange(c, pr, pr)]) == []
  {
    UnreadParts(c, u, b, a, fields);
    UnreadColumns(c, both, b, a);
    UnreadFilters(c, b, a);
    ConcatEmpty([[], [], [], [], [], [], []]);
  }

  lemma UnreadParts(c: string, u: set<string>, b: Policy, a: Policy, fields: seq<string>)
    requires SameWhereRead(b, a)
    ensures GuardChanges(c, b, a, fields) == [] && TableChanges(c, u, b, a) == []
    ensures MaskChanges(c, u, b, a) == [] && PurposeChanges(c, b, a) == []
  {
    FlatMapEmpty(fields, ByField(c, b, a));
    FlatMapEmpty(Listing(u), ByTable(c, b, a));
    SameMasksEmpty(c, u, b, a);
    SamePurposesEmpty(c, b, a);
  }

  lemma UnreadColumns(c: string, tables: set<string>, b: Policy, a: Policy)
    requires SameWhereRead(b, a)
    ensures ColumnChanges(c, tables, b, a) == []
  {
    forall s ensures ByColumnTable(c, b, a)(s) == [] {
      FlatMapEmpty(Listing(NamedColumns(b, s) + NamedColumns(a, s)), ByColumn(c, b, a, s));
    }
    FlatMapEmpty(Listing(tables), ByColumnTable(c, b, a));
  }

  lemma UnreadFilters(c: string, b: Policy, a: Policy)
    requires SameWhereRead(b, a)
    ensures FilterChanges(c, b, a) == []
  {
    forall s ensures ByFilterTable(c, b, a)(s) == [] {
      forall col ensures ByFilter(c, b, a, s)(col) == [] {
        FilterListedIff(c, b, a, s, col);
      }
      FlatMapEmpty(Listing(FilterColumns(b, s) + FilterColumns(a, s)), ByFilter(c, b, a, s));
    }
    FlatMapEmpty(Listing(FilterTables(b) + FilterTables(a)), ByFilterTable(c, b, a));
  }

  lemma LastOfTwo(f: RowFilter, g: RowFilter, t: string, col: string)
    requires f.table == g.table && f.column == g.column
    ensures LastFilter([f, g], t, col) == LastFilter([g], t, col)
  {
    var two := [f, g];
    assert two[1] == g && two[..1] == [f] && [g][..0] == [] && [f][..0] == [];
  }

  // A mandatory filter goes and nothing says so: of two filters on one column
  // the earlier one is dropped.
  lemma ShadowedFilterUnreported(c: string, pr: Profile, b: Policy, a: Policy, fields: seq<string>, f: RowFilter, g: RowFilter)
    requires f.table == g.table && f.column == g.column && RuleOf(f) != RuleOf(g)
    requires b.filters == [f, g] && a == b.(filters := [g])
    ensures RuleOf(f) in Enforced(b, f.table, f.column) && RuleOf(f) !in Enforced(a, f.table, f.column)
    ensures InnerChanges(c, pr, b, pr, a, fields) == [] && !TablesNoted(b, a) && !ColumnsNoted(b, a)
  {
    DropsShadowed(b, a, f, g);
    UnreadUnreported(c, pr, b, a, fields);
  }

  lemma DropsShadowed(b: Policy, a: Policy, f: RowFilter, g: RowFilter)
    requires f.table == g.table && f.column == g.column && RuleOf(f) != RuleOf(g)
    requires b.filters == [f, g] && a == b.(filters := [g])
    ensures RuleOf(f) in Enforced(b, f.table, f.column) && RuleOf(f) !in Enforced(a, f.table, f.column)
    ensures SameWhereRead(b, a)
  {
    assert b.filters[0] == f && f in b.filters;
    forall t, col ensures LastRule(b, t, col) == LastRule(a, t, col) {
      LastOfTwo(f, g, t, col);
    }
  }

  // ---------------------------------------------------------- join groups

  /** The policy sets a group of its own. */
  predicate SetsGroup(p: Policy) {
    p.joinGroup.Some? && p.joinGroup.value != ""
  }

  /** With the same profile group g on both sides: the policies' groups differ, or
      one of them sets a group other than g and the other none. */
  predicate GroupMoves(g: string, b: Policy, a: Policy) {
    if SetsGroup(b) && SetsGroup(a) then b.joinGroup != a.joinGroup
    else if SetsGroup(b) then b.joinGroup.value != g
    else SetsGroup(a) && a.joinGroup.value != g
  }

  // The diff reads the group of the profile only: the effective group changes
  // unreported exactly when the profile's group stays and the policy's moves it.
  lemma GroupGapIff(c: string, pb: Profile, b: Policy, pa: Profile, a: Policy)
    ensures EffectiveGroup(pb, b) != EffectiveGroup(pa, a) && JoinGroupChange(c, pb, pa) == [] <==>
            pb.joinGroup == pa.joinGroup && GroupMoves(pb.joinGroup, b, a)
  {
  }

  /** Two connections may be joined in one query. */
  predicate Joinable(p: Profile, policy: Policy, p': Profile, policy': Policy) {
    EffectiveGroup(p, policy) == EffectiveGroup(p', policy')
  }

  // A policy that adopts another connection's group opens joins to it with an
  // empty diff.
  lemma PolicyGroupUnreported(c: string, pr: Profile, b: Policy, a: Policy, other: Profile, policy: Policy, fields: seq<string>)
    requires !Joinable(pr, b, other, policy) && EffectiveGroup(other, policy) != ""
    requires a == b.(joinGroup := Some(EffectiveGroup(other, policy)))
    ensures Joinable(pr, a, other, policy)
    ensures InnerChanges(c, pr, b, pr, a, fields) == [] && !TablesNoted(b, a) && !ColumnsNoted(b, a)
  {
    UnreadUnreported(c, pr, b, a, fields);
  }

  // Any change of the write policy goes unreported.
  lemma WritesUnreported(c: string, pr: Profile, b: Policy, a: Policy, fields: seq<string>, w: string)
    requires a == b.(writes := w)
    ensures InnerChanges(c, pr, b, pr, a, fields) == [] && !TablesNoted(b, a) && !ColumnsNoted(b, a)
  {
    UnreadUnreported(c, pr, b, a, fields);
  }

  // ------------------------------------------------------------- purposes

  /** A query may declare this purpose: there is no gate, or it is on the list. */
  predicate PurposeOk(p: Policy, purpose: string) {
    p.purposes == {} || purpose in p.purposes
  }

  predicate GateSwitched(b: Policy, a: Policy) {
    (b.purposes == {}) != (a.purposes == {})
  }

  function GateEntry(c: string, b: Policy, a: Policy): Change {
    Change(PurposeAccess, c, None, Modified, if b.purposes == {} then Tightening else Loosening, GateWord(b), GateWord(a))
  }

  function PurposeEntry(c: string, purpose: string, after: bool): Change {
    if after then PurposeAdded(c, purpose)[0] else PurposeRemoved(c, purpose)[0]
  }

  // Completeness over every purpose: if a purpose becomes or stops being
  // acceptable, its own entry or the entry of the gate says so, in that
  // direction.
  lemma PurposeCovered(c: string, b: Policy, a: Policy, purpose: string)
    requires PurposeOk(b, purpose) != PurposeOk(a, purpose)
    ensures GateSwitched(b, a) ==>
              GateEntry(c, b, a) in PurposeChanges(c, b, a) && (GateEntry(c, b, a).direction.Loosening? <==> PurposeOk(a, purpose))
    ensures !GateSwitched(b, a) ==>
              var entry := PurposeEntry(c, purpose, PurposeOk(a, purpose));
              entry in PurposeChanges(c, b, a) && (entry.direction.Loosening? <==> PurposeOk(a, purpose))
  {
    PurposeDiffComplete(c, b, a, purpose);
  }

  /** What the entry says about the purpose is what happens to it. */
  predicate EntryHolds(b: Policy, a: Policy, purpose: string, after: bool) {
    PurposeOk(b, purpose) == !after && PurposeOk(a, purpose) == after
  }

  // The entry of a listed purpose tells the truth exactly when the gate is not
  // switched: then the purpose was accepted before and is accepted after.
  lemma PurposeEntryTrueIff(c: string, b: Policy, a: Policy, purpose: string)
    requires (purpose in b.purposes) != (purpose in a.purposes)
    ensures PurposeEntry(c, purpose, purpose in a.purposes) in PurposeChanges(c, b, a)
    ensures EntryHolds(b, a, purpose, purpose in a.purposes) <==> !GateSwitched(b, a)
    ensures GateSwitched(b, a) ==> PurposeOk(b, purpose) && PurposeOk(a, purpose)
  {
    PurposeDiffComplete(c, b, a, purpose);
  }

  // Switching the gate on for one purpose lists that purpose as loosening,
  // although it was accepted before.
  lemma GateMisread(c: string, b: Policy, a: Policy, purpose: string)
    requires b.purposes == {} && a == b.(purposes := {purpose})
    ensures PurposeOk(b, purpose) && PurposeOk(a, purpose)
    ensures PurposeEntry(c, purpose, true) in PurposeChanges(c, b, a) && PurposeEntry(c, purpose, true).direction.Loosening?
  {
    PurposeEntryTrueIff(c, b, a, purpose);
  }
}
