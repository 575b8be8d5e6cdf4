// Swapping the two configurations mirrors the access diff, with one exception.
module AccessDuality {
  import opened Json
  import opened PolicyModel
  import opened StableSort
  import opened AccessDiff

  function Opposite(d: Direction): Direction {
    match d
    case Loosening => Tightening
    case Tightening => Loosening
    case Neutral => Neutral
  }

  function Inverse(k: ChangeType): ChangeType {
    match k
    case Added => Removed
    case Removed => Added
    case Modified => Modified
  }

  /** The same change read backwards. */
  function Dual(ch: Change): Change {
    Change(ch.category, ch.connection, ch.subject, Inverse(ch.kind), Opposite(ch.direction), ch.after, ch.before)
  }

  function DualAll(s: seq<Change>): (r: seq<Change>)
    ensures |r| == |s| && forall i :: 0 <= i < |s| ==> r[i] == Dual(s[i])
  {
    seq(|s|, i requires 0 <= i < |s| => Dual(s[i]))
  }

  /** The two lists mirror each other up to order. */
  ghost predicate Mirrors(s: seq<Change>, t: seq<Change>) {
    multiset(t) == multiset(DualAll(s))
  }

  lemma MirrorsConcat(s: seq<Change>, t: seq<Change>, s': seq<Change>, t': seq<Change>)
    requires Mirrors(s, t) && Mirrors(s', t')
    ensures Mirrors(s + s', t + t')
  {
    assert DualAll(s + s') == DualAll(s) + DualAll(s');
  }

  lemma {:induction false} MirrorsFlatMap<T>(names: seq<T>, f: T -> seq<Change>, g: T -> seq<Change>)
    requires forall n :: n in names ==> Mirrors(f(n), g(n))
    ensures Mirrors(FlatMap(names, f), FlatMap(names, g))
  {
    if names != [] {
      var n := |names| - 1;
      MirrorsFlatMap(names[..n], f, g);
      MirrorsConcat(FlatMap(names[..n], f), FlatMap(names[..n], g), f(names[n]), g(names[n]));
    }
  }

  lemma {:induction false} MirrorsParts(xs: seq<seq<Change>>, ys: seq<seq<Change>>)
    requires |xs| == |ys| && forall i :: 0 <= i < |xs| ==> Mirrors(xs[i], ys[i])
    ensures Mirrors(Concat(xs), Concat(ys))
  {
    if xs != [] {
      var n := |xs| - 1;
      MirrorsParts(xs[..n], ys[..n]);
      MirrorsConcat(Concat(xs[..n]), Concat(ys[..n]), xs[n], ys[n]);
    }
  }

  lemma MirrorsOne(ch: Change)
    ensures Mirrors([ch], [Dual(ch)])
  {
    assert DualAll([ch]) == [Dual(ch)];
  }

  // ------------------------------------------------ category by category

  lemma GuardsMirror(c: string, b: Policy, a: Policy, fields: seq<string>)
    ensures Mirrors(GuardChanges(c, b, a, fields), GuardChanges(c, a, b, fields))
  {
    forall f ensures Mirrors(ByField(c, b, a)(f), ByField(c, a, b)(f)) {
      GuardMirrors(c, b, a, f);
    }
    MirrorsFlatMap(fields, ByField(c, b, a), ByField(c, a, b));
    SensitivityMirrors(c, b, a);
    MirrorsConcat(FlatMap(fields, ByField(c, b, a)), FlatMap(fields, ByField(c, a, b)),
                  SensitivityChange(c, b, a), SensitivityChange(c, a, b));
  }

  lemma GuardMirrors(c: string, b: Policy, a: Policy, field: string)
    ensures Mirrors(GuardChange(c, b, a, field), GuardChange(c, a, b, field))
  {
    var gb, ga := GuardOf(b, field), GuardOf(a, field);
    if gb != ga {
      assert Compare(field, ga, gb) == Opposite(Compare(field, gb, ga));
      MirrorsOne(GuardChange(c, b, a, field)[0]);
    }
  }

  lemma SensitivityMirrors(c: string, b: Policy, a: Policy)
    ensures Mirrors(SensitivityChange(c, b, a), SensitivityChange(c, a, b))
  {
    if AsSet(b.sensitivities) != AsSet(a.sensitivities) {
      MirrorsOne(SensitivityChange(c, b, a)[0]);
    }
  }

  lemma AccessMirrors(category: Category, c: string, what: string, before: bool, after: bool)
    ensures Mirrors(AccessChange(category, c, what, before, after), AccessChange(category, c, what, after, before))
  {
    if before != after {
      MirrorsOne(AccessChange(category, c, what, before, after)[0]);
    }
  }

  lemma TablesMirror(c: string, u: set<string>, b: Policy, a: Policy)
    ensures Mirrors(TableChanges(c, u, b, a), TableChanges(c, u, a, b))
  {
    forall t ensures Mirrors(ByTable(c, b, a)(t), ByTable(c, a, b)(t)) {
      AccessMirrors(TableAccess, c, t, TableAllowed(b, t), TableAllowed(a, t));
    }
    MirrorsFlatMap(Listing(u), ByTable(c, b, a), ByTable(c, a, b));
  }

  lemma ColumnsMirror(c: string, tables: set<string>, b: Policy, a: Policy)
    ensures Mirrors(ColumnChanges(c, tables, b, a), ColumnChanges(c, tables, a, b))
  {
    forall t ensures Mirrors(ByColumnTable(c, b, a)(t), ByColumnTable(c, a, b)(t)) {
      forall col ensures Mirrors(ByColumn(c, b, a, t)(col), ByColumn(c, a, b, t)(col)) {
        AccessMirrors(ColumnAccess, c, Dotted(t, col), ColumnAllowed(b, t, col), ColumnAllowed(a, t, col));
      }
      var u := NamedColumns(b, t) + NamedColumns(a, t);
      assert u == NamedColumns(a, t) + NamedColumns(b, t);
      MirrorsFlatMap(Listing(u), ByColumn(c, b, a, t), ByColumn(c, a, b, t));
    }
    MirrorsFlatMap(Listing(tables), ByColumnTable(c, b, a), ByColumnTable(c, a, b));
  }

  function Gone(category: Category, c: string, what: string, shown: Option<Shown>): Change {
    Change(category, c, Some(what), Removed, Loosening, shown, None)
  }

  function Came(category: Category, c: string, what: string, shown: Option<Shown>): Change {
    Change(category, c, Some(what), Added, Tightening, None, shown)
  }

  lemma AppearanceMirrors(category: Category, c: string, what: string, shown: Option<Shown>)
    ensures Mirrors([Gone(category, c, what, shown)], [Came(category, c, what, shown)])
    ensures Mirrors([Came(category, c, what, shown)], [Gone(category, c, what, shown)])
  {
    MirrorsOne(Gone(category, c, what, shown));
    MirrorsOne(Came(category, c, what, shown));
  }

  lemma FilterMirrors(c: string, what: string, b: Option<RowFilter>, a: Option<RowFilter>)
    ensures Mirrors(FilterDifference(c, what, b, a), FilterDifference(c, what, a, b))
  {
    if b.Some? && a.Some? {
      BothFiltersMirror(c, what, b.value, a.value);
    } else if b.Some? {
      AppearanceMirrors(MandatoryFilter, c, what, FilterSource(b.value));
    } else if a.Some? {
      AppearanceMirrors(MandatoryFilter, c, what, FilterSource(a.value));
    }
  }

  lemma BothFiltersMirror(c: string, what: string, b: RowFilter, a: RowFilter)
    ensures Mirrors(FilterDifference(c, what, Some(b), Some(a)), FilterDifference(c, what, Some(a), Some(b)))
  {
    if !SameFilter(b, a) {
      MirrorsOne(Change(MandatoryFilter, c, Some(what), Modified, Neutral, FilterSource(b), FilterSource(a)));
    }
  }

  lemma FiltersMirror(c: string, b: Policy, a: Policy)
    ensures Mirrors(FilterChanges(c, b, a), FilterChanges(c, a, b))
  {
    forall t ensures Mirrors(ByFilterTable(c, b, a)(t), ByFilterTable(c, a, b)(t)) {
      forall col ensures Mirrors(ByFilter(c, b, a, t)(col), ByFilter(c, a, b, t)(col)) {
        FilterMirrors(c, Dotted(t, col), LastFilter(b.filters, t, col), LastFilter(a.filters, t, col));
      }
      var u := FilterColumns(b, t) + FilterColumns(a, t);
      assert u == FilterColumns(a, t) + FilterColumns(b, t);
      MirrorsFlatMap(Listing(u), ByFilter(c, b, a, t), ByFilter(c, a, b, t));
    }
    var ts := FilterTables(b) + FilterTables(a);
    assert ts == FilterTables(a) + FilterTables(b);
    MirrorsFlatMap(Listing(ts), ByFilterTable(c, b, a), ByFilterTable(c, a, b));
  }

  lemma MaskMirrors(c: string, b: Policy, a: Policy, t: string, col: string)
    ensures Mirrors(MaskChange(c, b, a, t, col), MaskChange(c, a, b, t, col))
  {
    if ColumnMask(b, t, col) != ColumnMask(a, t, col) {
      MirrorsOne(MaskChange(c, b, a, t, col)[0]);
    }
  }

  lemma MasksMirror(c: string, u: set<string>, b: Policy, a: Policy)
    ensures Mirrors(MaskChanges(c, u, b, a), MaskChanges(c, u, a, b))
  {
    forall t ensures Mirrors(ByMaskTable(c, b, a)(t), ByMaskTable(c, a, b)(t)) {
      forall col ensures Mirrors(ByMask(c, b, a, t)(col), ByMask(c, a, b, t)(col)) {
        MaskMirrors(c, b, a, t, col);
      }
      var cols := MaskedColumns(b, t) + MaskedColumns(a, t);
      assert cols == MaskedColumns(a, t) + MaskedColumns(b, t);
      MirrorsFlatMap(Listing(cols), ByMask(c, b, a, t), ByMask(c, a, b, t));
    }
    assert MaskTables(b) + MaskTables(a) == MaskTables(a) + MaskTables(b);
    MirrorsFlatMap(Listing(u + (MaskTables(b) + MaskTables(a))), ByMaskTable(c, b, a), ByMaskTable(c, a, b));
  }

  lemma GateMirrors(c: string, b: Policy, a: Policy)
    ensures Mirrors(GateChange(c, b, a), GateChange(c, a, b))
  {
    if (b.purposes != {}) != (a.purposes != {}) {
      MirrorsOne(GateChange(c, b, a)[0]);
    }
  }

  lemma DeltasMirror(c: string, b: Policy, a: Policy)
    ensures Mirrors(DeltaChanges(c, b, a), DeltaChanges(c, a, b))
  {
    forall p ensures Mirrors(ByDelta(c, b, a)(p), ByDelta(c, a, b)(p)) {
      if DeltaAt(b, p) != DeltaAt(a, p) {
        MirrorsOne(DeltaChange(c, b, a, p)[0]);
      }
    }
    var u := b.purposePolicies.Keys + a.purposePolicies.Keys;
    assert u == a.purposePolicies.Keys + b.purposePolicies.Keys;
    MirrorsFlatMap(Listing(u), ByDelta(c, b, a), ByDelta(c, a, b));
  }

  // A purpose removed one way is a purpose added the other way.
  lemma PurposeListsMirror(c: string, ps: seq<string>)
    ensures Mirrors(FlatMap(ps, ByRemovedPurpose(c)), FlatMap(ps, ByAddedPurpose(c)))
    ensures Mirrors(FlatMap(ps, ByAddedPurpose(c)), FlatMap(ps, ByRemovedPurpose(c)))
  {
    forall p
      ensures Mirrors(ByRemovedPurpose(c)(p), ByAddedPurpose(c)(p))
      ensures Mirrors(ByAddedPurpose(c)(p), ByRemovedPurpose(c)(p))
    {
      MirrorsOne(PurposeRemoved(c, p)[0]);
      MirrorsOne(PurposeAdded(c, p)[0]);
    }
    MirrorsFlatMap(ps, ByRemovedPurpose(c), ByAddedPurpose(c));
    MirrorsFlatMap(ps, ByAddedPurpose(c), ByRemovedPurpose(c));
  }

  lemma PurposesMirror(c: string, b: Policy, a: Policy)
    ensures Mirrors(PurposeChanges(c, b, a), PurposeChanges(c, a, b))
  {
    var lost, won := Listing(b.purposes - a.purposes), Listing(a.purposes - b.purposes);
    GateMirrors(c, b, a);
    DeltasMirror(c, b, a);
    PurposeListsMirror(c, lost);
    PurposeListsMirror(c, won);
    var r, w := FlatMap(lost, ByRemovedPurpose(c)), FlatMap(won, ByAddedPurpose(c));
    var r', w' := FlatMap(won, ByRemovedPurpose(c)), FlatMap(lost, ByAddedPurpose(c));
    var g, g' := GateChange(c, b, a), GateChange(c, a, b);
    var d, d' := DeltaChanges(c, b, a), DeltaChanges(c, a, b);
    MirrorsCrosswise(g, g', r, w', w, r', d, d');
  }

  // The two middle parts change places.
  lemma MirrorsCrosswise(g: seq<Change>, g': seq<Change>, r: seq<Change>, w': seq<Change>,
                         w: seq<Change>, r': seq<Change>, d: seq<Change>, d': seq<Change>)
    requires Mirrors(g, g') && Mirrors(r, w') && Mirrors(w, r') && Mirrors(d, d')
    ensures Mirrors(g + (r + (w + d)), g' + (r' + (w' + d')))
  {
    MirrorsConcat(w, r', d, d');
    MirrorsConcat(r, w', w + d, r' + d');
    MirrorsConcat(g, g', r + (w + d), w' + (r' + d'));
    assert multiset(g' + (w' + (r' + d'))) == multiset(g' + (r' + (w' + d')));
  }

  lemma JoinGroupMirrors(c: string, b: Profile, a: Profile)
    ensures Mirrors(JoinGroupChange(c, b, a), JoinGroupChange(c, a, b))
  {
    if b.joinGroup != a.joinGroup {
      MirrorsOne(JoinGroupChange(c, b, a)[0]);
    }
  }

  lemma InnerMirrors(c: string, pb: Profile, b: Policy, pa: Profile, a: Policy, fields: seq<string>)
    ensures Mirrors(InnerChanges(c, pb, b, pa, a, fields), InnerChanges(c, pa, a, pb, b, fields))
  {
    var u := NamedTables(pb, b) + NamedTables(pa, a);
    assert u == NamedTables(pa, a) + NamedTables(pb, b);
    var both := AllowedInBoth(u, b, a);
    assert both == AllowedInBoth(u, a, b);
    GuardsMirror(c, b, a, fields);
    TablesMirror(c, u, b, a);
    ColumnsMirror(c, both, b, a);
    FiltersMirror(c, b, a);
    MasksMirror(c, u, b, a);
    PurposesMirror(c, b, a);
    JoinGroupMirrors(c, pb, pa);
    MirrorsSeven(
      GuardChanges(c, b, a, fields), GuardChanges(c, a, b, fields),
      TableChanges(c, u, b, a), TableChanges(c, u, a, b),
      ColumnChanges(c, both, b, a), ColumnChanges(c, both, a, b),
      FilterChanges(c, b, a), FilterChanges(c, a, b),
      MaskChanges(c, u, b, a), MaskChanges(c, u, a, b),
      PurposeChanges(c, b, a), PurposeChanges(c, a, b),
      JoinGroupChange(c, pb, pa), JoinGroupChange(c, pa, pb));
  }

  lemma MirrorsSeven(x1: seq<Change>, y1: seq<Change>, x2: seq<Change>, y2: seq<Change>, x3: seq<Change>, y3: seq<Change>,
                     x4: seq<Change>, y4: seq<Change>, x5: seq<Change>, y5: seq<Change>, x6: seq<Change>, y6: seq<Change>,
                     x7: seq<Change>, y7: seq<Change>)
    requires Mirrors(x1, y1) && Mirrors(x2, y2) && Mirrors(x3, y3) && Mirrors(x4, y4)
    requires Mirrors(x5, y5) && Mirrors(x6, y6) && Mirrors(x7, y7)
    ensures Mirrors(Concat([x1, x2, x3, x4, x5, x6, x7]), Concat([y1, y2, y3, y4, y5, y6, y7]))
  {
    MirrorsParts([x1, x2, x3, x4, x5, x6, x7], [y1, y2, y3, y4, y5, y6, y7]);
  }

  // --------------------------------------------------------- connections

  /** Present on one side only, and hidden there. */
  predicate HiddenOneSided(c: string, active: Context, candidate: Context, who: Option<string>) {
    || (c in active.registry && c !in candidate.registry && !Visible(active.registry[c], Resolve(active.policies, c, who)))
    || (c !in active.registry && c in candidate.registry && !Visible(candidate.registry[c], Resolve(candidate.policies, c, who)))
  }

  lemma SightMirrors(c: string, before: bool, after: bool)
    ensures Mirrors(SightChange(c, before, after), SightChange(c, after, before))
  {
    if before != after {
      MirrorsOne(SightChange(c, before, after)[0]);
    }
  }

  lemma SharedMirrors(c: string, pb: Profile, b: Policy, pa: Profile, a: Policy, fields: seq<string>)
    ensures Mirrors(SharedChanges(c, pb, b, pa, a, fields), SharedChanges(c, pa, a, pb, b, fields))
  {
    var vb, va := Visible(pb, b), Visible(pa, a);
    SightMirrors(c, vb, va);
    var x, y := SightChange(c, vb, va), SightChange(c, va, vb);
    if vb && va {
      var inner, inner' := InnerChanges(c, pb, b, pa, a, fields), InnerChanges(c, pa, a, pb, b, fields);
      InnerMirrors(c, pb, b, pa, a, fields);
      MirrorsConcat(x, y, inner, inner');
    }
  }

  lemma VisibleOneSidedMirrors(c: string)
    ensures Mirrors(RemovedConnection(c, true), AddedConnection(c, true))
    ensures Mirrors(AddedConnection(c, true), RemovedConnection(c, true))
  {
    MirrorsOne(RemovedConnection(c, true)[0]);
    MirrorsOne(AddedConnection(c, true)[0]);
  }

  lemma ConnectionMirrors(c: string, active: Context, candidate: Context, who: Option<string>, fields: seq<string>)
    requires !HiddenOneSided(c, active, candidate, who)
    ensures Mirrors(ConnectionChanges(c, active, candidate, who, fields), ConnectionChanges(c, candidate, active, who, fields))
  {
    VisibleOneSidedMirrors(c);
    if c in active.registry && c in candidate.registry {
      SharedMirrors(c, active.registry[c], Resolve(active.policies, c, who),
                    candidate.registry[c], Resolve(candidate.policies, c, who), fields);
    }
  }

  // ------------------------------------------------- every change is tagged

  ghost predicate About(s: seq<Change>, c: string) {
    forall i :: 0 <= i < |s| ==> s[i].connection == c
  }

  lemma {:induction false} AboutFlatMap<T>(names: seq<T>, f: T -> seq<Change>, c: string)
    requires forall n :: n in names ==> About(f(n), c)
    ensures About(FlatMap(names, f), c)
  {
    if names != [] {
      AboutFlatMap(names[..|names| - 1], f, c);
    }
  }

  lemma AboutConcat(s: seq<Change>, t: seq<Change>, c: string)
    requires About(s, c) && About(t, c)
    ensures About(s + t, c)
  {
  }

  lemma GuardsAbout(c: string, b: Policy, a: Policy, fields: seq<string>)
    ensures About(GuardChanges(c, b, a, fields), c)
  {
    AboutFlatMap(fields, ByField(c, b, a), c);
    AboutConcat(FlatMap(fields, ByField(c, b, a)), SensitivityChange(c, b, a), c);
  }

  lemma ColumnsAbout(c: string, tables: set<string>, b: Policy, a: Policy)
    ensures About(ColumnChanges(c, tables, b, a), c)
  {
    forall t ensures About(ByColumnTable(c, b, a)(t), c) {
      AboutFlatMap(Listing(NamedColumns(b, t) + NamedColumns(a, t)), ByColumn(c, b, a, t), c);
    }
    AboutFlatMap(Listing(tables), ByColumnTable(c, b, a), c);
  }

  lemma FiltersAbout(c: string, b: Policy, a: Policy)
    ensures About(FilterChanges(c, b, a), c)
  {
    forall t ensures About(ByFilterTable(c, b, a)(t), c) {
      AboutFlatMap(Listing(FilterColumns(b, t) + FilterColumns(a, t)), ByFilter(c, b, a, t), c);
    }
    AboutFlatMap(Listing(FilterTables(b) + FilterTables(a)), ByFilterTable(c, b, a), c);
  }

  lemma MasksAbout(c: string, u: set<string>, b: Policy, a: Policy)
    ensures About(MaskChanges(c, u, b, a), c)
  {
    forall t ensures About(ByMaskTable(c, b, a)(t), c) {
      AboutFlatMap(Listing(MaskedColumns(b, t) + MaskedColumns(a, t)), ByMask(c, b, a, t), c);
    }
    AboutFlatMap(Listing(u + (MaskTables(b) + MaskTables(a))), ByMaskTable(c, b, a), c);
  }

  lemma PurposesAbout(c: string, b: Policy, a: Policy)
    ensures About(PurposeChanges(c, b, a), c)
  {
    AboutFlatMap(Listing(b.purposes - a.purposes), ByRemovedPurpose(c), c);
    AboutFlatMap(Listing(a.purposes - b.purposes), ByAddedPurpose(c), c);
    AboutFlatMap(Listing(b.purposePolicies.Keys + a.purposePolicies.Keys), ByDelta(c, b, a), c);
    var r, w := FlatMap(Listing(b.purposes - a.purposes), ByRemovedPurpose(c)), FlatMap(Listing(a.purposes - b.purposes), ByAddedPurpose(c));
    AboutConcat(w, DeltaChanges(c, b, a), c);
    AboutConcat(r, w + DeltaChanges(c, b, a), c);
    AboutConcat(GateChange(c, b, a), r + (w + DeltaChanges(c, b, a)), c);
  }

  lemma {:induction false} AboutParts(xs: seq<seq<Change>>, c: string)
    requires forall i :: 0 <= i < |xs| ==> About(xs[i], c)
    ensures About(Concat(xs), c)
  {
    if xs != [] {
      AboutParts(xs[..|xs| - 1], c);
    }
  }

  lemma TablesAbout(c: string, u: set<string>, b: Policy, a: Policy)
    ensures About(TableChanges(c, u, b, a), c)
  {
    AboutFlatMap(Listing(u), ByTable(c, b, a), c);
  }

  lemma JoinGroupAbout(c: string, b: Profile, a: Profile)
    ensures About(JoinGroupChange(c, b, a), c)
  {
  }

  lemma InnerAbout(c: string, pb: Profile, b: Policy, pa: Profile, a: Policy, fields: seq<string>)
    ensures About(InnerChanges(c, pb, b, pa, a, fields), c)
  {
    var u := NamedTables(pb, b) + NamedTables(pa, a);
    InnerAboutOver(c, u, AllowedInBoth(u, b, a), pb, b, pa, a, fields);
  }

  lemma InnerAboutOver(c: string, u: set<string>, both: set<string>, pb: Profile, b: Policy, pa: Profile, a: Policy, fields: seq<string>)
    ensures About(Concat([GuardChanges(c, b, a, fields), TableChanges(c, u, b, a), ColumnChanges(c, both, b, a),
                          FilterChanges(c, b, a), MaskChanges(c, u, b, a), PurposeChanges(c, b, a), JoinGroupChange(c, pb, pa)]), c)
  {
    GuardsAbout(c, b, a, fields);
    TablesAbout(c, u, b, a);
    ColumnsAbout(c, both, b, a);
    FiltersAbout(c, b, a);
    MasksAbout(c, u, b, a);
    PurposesAbout(c, b, a);
    JoinGroupAbout(c, pb, pa);
    AboutSeven(c, GuardChanges(c, b, a, fields), TableChanges(c, u, b, a), ColumnChanges(c, both, b, a),
               FilterChanges(c, b, a), MaskChanges(c, u, b, a), PurposeChanges(c, b, a), JoinGroupChange(c, pb, pa));
  }

  lemma AboutSeven(c: string, x1: seq<Change>, x2: seq<Change>, x3: seq<Change>, x4: seq<Change>,
                   x5: seq<Change>, x6: seq<Change>, x7: seq<Change>)
    requires About(x1, c) && About(x2, c) && About(x3, c) && About(x4, c) && About(x5, c) && About(x6, c) && About(x7, c)
    ensures About(Concat([x1, x2, x3, x4, x5, x6, x7]), c)
  {
    AboutParts([x1, x2, x3, x4, x5, x6, x7], c);
  }

  lemma SharedAbout(c: string, pb: Profile, b: Policy, pa: Profile, a: Policy, fields: seq<string>)
    ensures About(SharedChanges(c, pb, b, pa, a, fields), c)
  {
    var vb, va := Visible(pb, b), Visible(pa, a);
    SightAbout(c, vb, va);
    if vb && va {
      InnerAbout(c, pb, b, pa, a, fields);
      AboutConcat(SightChange(c, vb, va), InnerChanges(c, pb, b, pa, a, fields), c);
    }
  }

  lemma SightAbout(c: string, before: bool, after: bool)
    ensures About(SightChange(c, before, after), c)
  {
  }

  lemma ConnectionAbout(c: string, active: Context, candidate: Context, who: Option<string>, fields: seq<string>)
    ensures About(ConnectionChanges(c, active, candidate, who, fields), c)
  {
    if c in active.registry && c in candidate.registry {
      SharedAbout(c, active.registry[c], Resolve(active.policies, c, who),
                  candidate.registry[c], Resolve(candidate.policies, c, who), fields);
    }
  }

  lemma {:induction false} InFlatMap<T, U>(names: seq<T>, f: T -> seq<U>, x: U)
    ensures x in FlatMap(names, f) <==> exists n :: n in names && x in f(n)
  {
    if names != [] {
      var k := |names| - 1;
      InFlatMap(names[..k], f, x);
      assert forall n :: n in names <==> n in names[..k] || n == names[k];
    }
  }

  lemma InAllChanges(active: Context, candidate: Context, who: Option<string>, fields: seq<string>, ch: Change)
    ensures ch in AllChanges(active, candidate, who, fields) <==>
            ch in ConnectionChanges(ch.connection, active, candidate, who, fields)
  {
    var ids := active.registry.Keys + candidate.registry.Keys;
    var f := ByConnection(active, candidate, who, fields);
    forall c ensures About(f(c), c) && (f(c) != [] ==> c in ids) {
      ConnectionAbout(c, active, candidate, who, fields);
    }
    InTagged(ids, f, ch);
  }

  lemma InTagged(ids: set<string>, f: string -> seq<Change>, ch: Change)
    requires forall c :: About(f(c), c) && (f(c) != [] ==> c in ids)
    ensures ch in FlatMap(Listing(ids), f) <==> ch in f(ch.connection)
  {
    ListingLists(ids);
    InFlatMap(Listing(ids), f, ch);
    if ch in FlatMap(Listing(ids), f) {
      var c :| c in Listing(ids) && ch in f(c);
      assert About(f(c), c);
    }
    if ch in f(ch.connection) {
      assert f(ch.connection) != [] && ch.connection in Listing(ids);
    }
  }

  // ----------------------------------------------------------- the theorem

  ghost predicate AnyHiddenOneSided(active: Context, candidate: Context, who: Option<string>) {
    exists c :: HiddenOneSided(c, active, candidate, who)
  }

  // A hidden connection that comes or goes breaks the mirror: removing it reads
  // as tightening, adding it as neutral.
  lemma HiddenBreaksMirror(c: string, active: Context, candidate: Context, who: Option<string>, fields: seq<string>)
    requires HiddenOneSided(c, active, candidate, who)
    ensures !Mirrors(AllChanges(active, candidate, who, fields), AllChanges(candidate, active, who, fields))
  {
    var s, t := AllChanges(active, candidate, who, fields), AllChanges(candidate, active, who, fields);
    var ch := ConnectionChanges(c, active, candidate, who, fields)[0];
    InAllChanges(active, candidate, who, fields, ch);
    InAllChanges(candidate, active, who, fields, Dual(ch));
    var i :| 0 <= i < |s| && s[i] == ch;
    assert DualAll(s)[i] == Dual(ch);
    assert Dual(ch) in multiset(DualAll(s));
    assert Dual(ch) !in t;
    assert Dual(ch) !in multiset(t);
  }

  // Reversal duality: swapping the configurations yields the same changes read
  // backwards, across all categories, exactly unless a hidden connection is
  // present on one side only.
  lemma ReversalDuality(active: Context, candidate: Context, who: Option<string>, fields: seq<string>)
    ensures Mirrors(AllChanges(active, candidate, who, fields), AllChanges(candidate, active, who, fields)) <==>
            !AnyHiddenOneSided(active, candidate, who)
  {
    if AnyHiddenOneSided(active, candidate, who) {
      var c :| HiddenOneSided(c, active, candidate, who);
      HiddenBreaksMirror(c, active, candidate, who, fields);
    } else {
      var ids := active.registry.Keys + candidate.registry.Keys;
      assert ids == candidate.registry.Keys + active.registry.Keys;
      var f, g := ByConnection(active, candidate, who, fields), ByConnection(candidate, active, who, fields);
      forall c ensures Mirrors(f(c), g(c)) {
        assert !HiddenOneSided(c, active, candidate, who);
        ConnectionMirrors(c, active, candidate, who, fields);
      }
      MirrorsFlatMap(Listing(ids), f, g);
    }
  }
}
