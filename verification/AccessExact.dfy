// The access report as a set of facts: an entry is in it exactly when what it
// says is true of the two configurations, told over the policies in force.
module AccessExact {
  import opened Json
  import opened PolicyModel
  import opened PolicyMeaning
  import opened StableSort
  import opened AccessDiff
  import opened AccessDuality
  import opened AccessCompleteness
  import opened AccessEnforcement
  import opened AccessReport
  import opened AccessCoverage

  // ------------------------------------------- which names are compared

  predicate FilterOn(p: Policy, t: string) {
    exists f :: f in p.filters && f.table == t
  }

  /** A table the profile or the policy names. */
  predicate Names(pr: Profile, p: Policy, t: string) {
    || t in pr.knownTables || t in p.allowedTables || t in p.deniedTables
    || (t != "*" && (t in p.allowedColumns || t in p.deniedColumns))
    || FilterOn(p, t)
  }

  predicate FilterUses(p: Policy, t: string, col: string) {
    exists f :: f in p.filters && f.table == t && f.column == col
  }

  /** A column the policy names for this table or for all tables. */
  predicate NamesColumn(p: Policy, t: string, col: string) {
    || Under(p.allowedColumns, t, col) || Under(p.allowedColumns, "*", col)
    || Under(p.deniedColumns, t, col) || Under(p.deniedColumns, "*", col)
    || FilterUses(p, t, col)
  }

  /** The two sides of a connection present in both configurations. */
  datatype Sides = Sides(pb: Profile, b: Policy, pa: Profile, a: Policy)

  predicate Compared(s: Sides, t: string) {
    Names(s.pb, s.b, t) || Names(s.pa, s.a, t)
  }

  predicate MasksCompared(s: Sides, t: string) {
    Compared(s, t) || (t != "*" && (t in s.b.masks || t in s.a.masks))
  }

  // --------------------------------------------------- what an entry says

  function Says(word: string): Option<Shown> {
    Some(Word(word))
  }

  function Flip(category: Category, c: string, what: string, up: bool): Change {
    if up then Change(category, c, Some(what), Added, Loosening, Says("denied"), Says("allowed"))
    else Change(category, c, Some(what), Removed, Tightening, Says("allowed"), Says("denied"))
  }

  ghost predicate TableEntry(ch: Change, c: string, s: Sides, t: string, up: bool) {
    && Compared(s, t) && MayRead(s.b, t) == !up && MayRead(s.a, t) == up
    && ch == Flip(TableAccess, c, t, up)
  }

  ghost predicate ColumnEntry(ch: Change, c: string, s: Sides, t: string, col: string, up: bool) {
    && Compared(s, t) && MayRead(s.b, t) && MayRead(s.a, t)
    && (NamesColumn(s.b, t, col) || NamesColumn(s.a, t, col))
    && MaySee(s.b, t, col) == !up && MaySee(s.a, t, col) == up
    && ch == Flip(ColumnAccess, c, t + "." + col, up)
  }

  /** Where a filter takes its value from; a fixed value itself is not told. */
  function Source(f: RowFilter): Option<Shown> {
    match f.claim
    case Some(name) => Says("claim:" + name)
    case None => Says("configured_literal")
  }

  predicate SameRule(f: RowFilter, g: RowFilter) {
    f.claim == g.claim && (f.claim == None ==> f.value == g.value)
  }

  ghost predicate FilterEntry(ch: Change, c: string, s: Sides, t: string, col: string, f: Option<RowFilter>, g: Option<RowFilter>) {
    && LastOn(s.b.filters, t, col, f) && LastOn(s.a.filters, t, col, g)
    && match (f, g)
       case (Some(x), None) => ch == Change(MandatoryFilter, c, Some(t + "." + col), Removed, Loosening, Source(x), None)
       case (None, Some(y)) => ch == Change(MandatoryFilter, c, Some(t + "." + col), Added, Tightening, None, Source(y))
       case (Some(x), Some(y)) =>
         !SameRule(x, y) && ch == Change(MandatoryFilter, c, Some(t + "." + col), Modified, Neutral, Source(x), Source(y))
       case (None, None) => false
  }

  ghost predicate MaskedEntry(ch: Change, c: string, s: Sides, t: string, col: string, m: Option<Mask>, n: Option<Mask>) {
    && MasksCompared(s, t) && Masked(s.b, t, col, m) && Masked(s.a, t, col, n)
    && match (m, n)
       case (Some(x), None) =>
         ch == Change(ColumnMasking, c, Some(t + "." + col), Removed, Loosening, Some(MaskShown(x)), None)
       case (None, Some(y)) =>
         ch == Change(ColumnMasking, c, Some(t + "." + col), Added, Tightening, None, Some(MaskShown(y)))
       case (Some(x), Some(y)) =>
         x != y && ch == Change(ColumnMasking, c, Some(t + "." + col), Modified, Neutral, Some(MaskShown(x)), Some(MaskShown(y)))
       case (None, None) => false
  }

  ghost predicate GateEntry(ch: Change, c: string, s: Sides) {
    || (s.b.purposes == {} && s.a.purposes != {} &&
          ch == Change(PurposeAccess, c, None, Modified, Tightening, Says("not required"), Says("required")))
    || (s.b.purposes != {} && s.a.purposes == {} &&
          ch == Change(PurposeAccess, c, None, Modified, Loosening, Says("required"), Says("not required")))
  }

  ghost predicate PermitEntry(ch: Change, c: string, s: Sides, purpose: string) {
    || (purpose in s.b.purposes && purpose !in s.a.purposes &&
          ch == Change(PurposeAccess, c, Some(purpose), Removed, Tightening, Says("allowed"), Says("not permitted")))
    || (purpose !in s.b.purposes && purpose in s.a.purposes &&
          ch == Change(PurposeAccess, c, Some(purpose), Added, Loosening, Says("not permitted"), Says("allowed")))
  }

  ghost predicate NarrowingEntry(ch: Change, c: string, s: Sides, purpose: string) {
    var told := Says("narrowing configured");
    var m, n := s.b.purposePolicies, s.a.purposePolicies;
    || (purpose in m && purpose !in n && ch == Change(PurposeAccess, c, Some(purpose), Removed, Loosening, told, None))
    || (purpose !in m && purpose in n && ch == Change(PurposeAccess, c, Some(purpose), Added, Tightening, None, told))
    || (purpose in m && purpose in n && m[purpose] != n[purpose] &&
          ch == Change(PurposeAccess, c, Some(purpose), Modified, Neutral, told, told))
  }

  /** The setting of a guardrail field. */
  function Setting(p: Policy, field: string): Guard {
    if field == "require_explicit_allowlist" then Switch(p.explicitOnly)
    else if field in p.guards then p.guards[field]
    else Unset
  }

  predicate IsOn(v: Guard) {
    v == Switch(true) || v.CostMode? || (v.Number? && v.n != 0.0)
  }

  function Amount(v: Guard): real {
    match v
    case Number(n) => n
    case Switch(true) => 1.0
    case _ => 0.0
  }

  /** w lets through strictly more than v: logging literals, only observing costs,
      no cap rather than some cap, a higher cap, and for five fields a lower one. */
  predicate Looser(field: string, v: Guard, w: Guard) {
    if field == "log_query_literals" then !IsOn(v) && IsOn(w)
    else if field == "cost_estimation_mode" then v != CostMode(true) && w == CostMode(true)
    else if v == Unset || w == Unset then w == Unset && v != Unset
    else if field == "min_group_size" || field == "quota_window_seconds" || field == "disclosure_budget_window_seconds"
         || field == "templates_only" || field == "require_explicit_allowlist" then Amount(w) < Amount(v)
    else Amount(w) > Amount(v)
  }

  ghost predicate GuardrailEntry(ch: Change, c: string, s: Sides, field: string) {
    var v, w := Setting(s.b, field), Setting(s.a, field);
    && v != w
    && ch == Change(Guardrail, c, Some(field), Modified,
                    if Looser(field, v, w) then Loosening else if Looser(field, w, v) then Tightening else Neutral,
                    Some(Value(v)), Some(Value(w)))
  }

  ghost predicate LabelsEntry(ch: Change, c: string, s: Sides) {
    var m, n := s.b.sensitivities, s.a.sensitivities;
    && !(forall l :: l in m <==> l in n)
    && ch == Change(Guardrail, c, Some("approval_sensitivities"), Modified,
                    if |n| > |m| then Tightening else if |n| < |m| then Loosening else Neutral,
                    Some(Labels(Sort(m, NameLe))), Some(Labels(Sort(n, NameLe))))
  }

  ghost predicate GroupEntry(ch: Change, c: string, s: Sides) {
    && s.pb.joinGroup != s.pa.joinGroup
    && ch == Change(JoinGroup, c, None, Modified, Neutral, Says(s.pb.joinGroup), Says(s.pa.joinGroup))
  }

  // ------------------------------------------------- category by category

  ghost predicate SomeTable(ch: Change, c: string, s: Sides) {
    exists t, up :: TableEntry(ch, c, s, t, up)
  }

  ghost predicate SomeColumn(ch: Change, c: string, s: Sides) {
    exists t, col, up :: ColumnEntry(ch, c, s, t, col, up)
  }

  ghost predicate SomeFilter(ch: Change, c: string, s: Sides) {
    exists t, col, f, g :: FilterEntry(ch, c, s, t, col, f, g)
  }

  ghost predicate SomeMask(ch: Change, c: string, s: Sides) {
    exists t, col, m, n :: MaskedEntry(ch, c, s, t, col, m, n)
  }

  ghost predicate SomePurpose(ch: Change, c: string, s: Sides) {
    GateEntry(ch, c, s) || exists purpose :: PermitEntry(ch, c, s, purpose) || NarrowingEntry(ch, c, s, purpose)
  }

  ghost predicate SomeGuardrail(ch: Change, c: string, s: Sides, fields: seq<string>) {
    LabelsEntry(ch, c, s) || exists field :: field in fields && GuardrailEntry(ch, c, s, field)
  }

  function Universe(s: Sides): set<string> {
    NamedTables(s.pb, s.b) + NamedTables(s.pa, s.a)
  }

  lemma UniverseIff(s: Sides, t: string)
    ensures t in Universe(s) <==> Compared(s, t)
    ensures t in MaskUniverse(Universe(s), s.b, s.a) <==> MasksCompared(s, t)
    ensures t in AllowedInBoth(Universe(s), s.b, s.a) <==> Compared(s, t) && MayRead(s.b, t) && MayRead(s.a, t)
  {
  }

  lemma NamedColumnsIff(p: Policy, t: string, col: string)
    ensures col in NamedColumns(p, t) <==> NamesColumn(p, t, col)
  {
  }

  lemma TablesExact(ch: Change, c: string, s: Sides)
    ensures ch in TableChanges(c, Universe(s), s.b, s.a) <==> SomeTable(ch, c, s)
  {
    InListed(Universe(s), ByTable(c, s.b, s.a), ch);
    forall t ensures t in Universe(s) && ch in ByTable(c, s.b, s.a)(t) <==> TableEntry(ch, c, s, t, true) || TableEntry(ch, c, s, t, false) {
      UniverseIff(s, t);
    }
  }

  lemma ColumnsExact(ch: Change, c: string, s: Sides)
    ensures ch in ColumnChanges(c, AllowedInBoth(Universe(s), s.b, s.a), s.b, s.a) <==> SomeColumn(ch, c, s)
  {
    var tables := AllowedInBoth(Universe(s), s.b, s.a);
    InListed(tables, ByColumnTable(c, s.b, s.a), ch);
    if SomeColumn(ch, c, s) {
      var t, col, up :| ColumnEntry(ch, c, s, t, col, up);
      UniverseIff(s, t);
      ColumnExact(ch, c, s, t, col);
      InListed(NamedColumns(s.b, t) + NamedColumns(s.a, t), ByColumn(c, s.b, s.a, t), ch);
      assert ch in ByColumnTable(c, s.b, s.a)(t);
    }
    if ch in ColumnChanges(c, tables, s.b, s.a) {
      var t := FromListed(tables, ByColumnTable(c, s.b, s.a), ch);
      var col := FromListed(NamedColumns(s.b, t) + NamedColumns(s.a, t), ByColumn(c, s.b, s.a, t), ch);
      UniverseIff(s, t);
      ColumnExact(ch, c, s, t, col);
    }
  }

  lemma ColumnExact(ch: Change, c: string, s: Sides, t: string, col: string)
    requires t in AllowedInBoth(Universe(s), s.b, s.a)
    ensures col in NamedColumns(s.b, t) + NamedColumns(s.a, t) && ch in ByColumn(c, s.b, s.a, t)(col) <==>
            ColumnEntry(ch, c, s, t, col, true) || ColumnEntry(ch, c, s, t, col, false)
  {
    UniverseIff(s, t);
    NamedColumnsIff(s.b, t, col);
    NamedColumnsIff(s.a, t, col);
    MaySeeIff(s.b, t, col);
    MaySeeIff(s.a, t, col);
  }

  lemma SourceIs(f: RowFilter)
    ensures Source(f) == FilterSource(f)
  {
  }

  lemma SameRuleIff(f: RowFilter, g: RowFilter)
    ensures SameRule(f, g) <==> SameFilter(f, g)
  {
    SameFilterIff(f, g);
  }

  lemma FilterExact(ch: Change, c: string, s: Sides, t: string, col: string)
    ensures ch in FilterChange(c, s.b, s.a, t, col) <==>
            FilterEntry(ch, c, s, t, col, LastFilter(s.b.filters, t, col), LastFilter(s.a.filters, t, col))
  {
    var f, g := LastFilter(s.b.filters, t, col), LastFilter(s.a.filters, t, col);
    LastIff(s.b.filters, t, col, f);
    LastIff(s.a.filters, t, col, g);
    if f.Some? && g.Some? {
      SameRuleIff(f.value, g.value);
    }
  }

  lemma FiltersExact(ch: Change, c: string, s: Sides)
    ensures ch in FilterChanges(c, s.b, s.a) <==> SomeFilter(ch, c, s)
  {
    var tables := FilterTables(s.b) + FilterTables(s.a);
    if SomeFilter(ch, c, s) {
      var t, col, f, g :| FilterEntry(ch, c, s, t, col, f, g);
      LastIff(s.b.filters, t, col, f);
      LastIff(s.a.filters, t, col, g);
      FilterExact(ch, c, s, t, col);
      FilterReached(ch, c, s, t, col);
    }
    if ch in FilterChanges(c, s.b, s.a) {
      var t := FromListed(tables, ByFilterTable(c, s.b, s.a), ch);
      var col := FromListed(FilterColumns(s.b, t) + FilterColumns(s.a, t), ByFilter(c, s.b, s.a, t), ch);
      FilterExact(ch, c, s, t, col);
    }
  }

  lemma FilterReached(ch: Change, c: string, s: Sides, t: string, col: string)
    requires ch in FilterChange(c, s.b, s.a, t, col)
    ensures ch in FilterChanges(c, s.b, s.a)
  {
    var f, g := LastFilter(s.b.filters, t, col), LastFilter(s.a.filters, t, col);
    FilterDifferenceIs(c, Dotted(t, col), f, g);
    FilterDiffComplete(c, s.b, s.a, t, col);
  }

  lemma MaskExact(ch: Change, c: string, s: Sides, t: string, col: string)
    ensures t in MaskUniverse(Universe(s), s.b, s.a) && ch in MaskChange(c, s.b, s.a, t, col) <==>
            MaskedEntry(ch, c, s, t, col, ColumnMask(s.b, t, col), ColumnMask(s.a, t, col))
  {
    UniverseIff(s, t);
    MaskedIff(s.b, t, col, ColumnMask(s.b, t, col));
    MaskedIff(s.a, t, col, ColumnMask(s.a, t, col));
  }

  lemma MasksExact(ch: Change, c: string, s: Sides)
    ensures ch in MaskChanges(c, Universe(s), s.b, s.a) <==> SomeMask(ch, c, s)
  {
    var tables := MaskUniverse(Universe(s), s.b, s.a);
    if SomeMask(ch, c, s) {
      var t, col, m, n :| MaskedEntry(ch, c, s, t, col, m, n);
      MaskedIff(s.b, t, col, m);
      MaskedIff(s.a, t, col, n);
      MaskExact(ch, c, s, t, col);
      MaskChangeIs(c, s.b, s.a, t, col);
      MaskDiffComplete(c, Universe(s), s.b, s.a, t, col);
    }
    if ch in MaskChanges(c, Universe(s), s.b, s.a) {
      var t := FromListed(tables, ByMaskTable(c, s.b, s.a), ch);
      var col := FromListed(MaskedColumns(s.b, t) + MaskedColumns(s.a, t), ByMask(c, s.b, s.a, t), ch);
      MaskExact(ch, c, s, t, col);
    }
  }

  lemma NarrowingExact(ch: Change, c: string, s: Sides, purpose: string)
    ensures ch in DeltaChange(c, s.b, s.a, purpose) <==> NarrowingEntry(ch, c, s, purpose)
    ensures NarrowingEntry(ch, c, s, purpose) ==> purpose in s.b.purposePolicies.Keys + s.a.purposePolicies.Keys
  {
  }

  lemma PermitExact(ch: Change, c: string, s: Sides, purpose: string)
    ensures PermitEntry(ch, c, s, purpose) <==>
            || (purpose in s.b.purposes - s.a.purposes && ch in PurposeRemoved(c, purpose))
            || (purpose in s.a.purposes - s.b.purposes && ch in PurposeAdded(c, purpose))
  {
  }

  lemma GateExact(ch: Change, c: string, s: Sides)
    ensures ch in GateChange(c, s.b, s.a) <==> GateEntry(ch, c, s)
  {
  }

  lemma PurposesExact(ch: Change, c: string, s: Sides)
    ensures ch in PurposeChanges(c, s.b, s.a) <==> SomePurpose(ch, c, s)
  {
    var gone, come := s.b.purposes - s.a.purposes, s.a.purposes - s.b.purposes;
    var narrowed := s.b.purposePolicies.Keys + s.a.purposePolicies.Keys;
    InPurposes(c, s.b, s.a, ch);
    GateExact(ch, c, s);
    InListed(gone, ByRemovedPurpose(c), ch);
    InListed(come, ByAddedPurpose(c), ch);
    InListed(narrowed, ByDelta(c, s.b, s.a), ch);
    forall p ensures PermitEntry(ch, c, s, p) <==> (p in gone && ch in ByRemovedPurpose(c)(p)) || (p in come && ch in ByAddedPurpose(c)(p)) {
      PermitExact(ch, c, s, p);
    }
    forall p ensures NarrowingEntry(ch, c, s, p) <==> p in narrowed && ch in ByDelta(c, s.b, s.a)(p) {
      NarrowingExact(ch, c, s, p);
    }
  }

  lemma SettingIs(p: Policy, field: string)
    ensures Setting(p, field) == GuardOf(p, field)
  {
  }

  lemma LooserSpecial(v: Guard, w: Guard)
    ensures Looser("log_query_literals", v, w) <==> Compare("log_query_literals", v, w) == Loosening
    ensures Looser("cost_estimation_mode", v, w) <==> Compare("cost_estimation_mode", v, w) == Loosening
  {
  }

  lemma LooserCap(field: string, v: Guard, w: Guard)
    requires field != "log_query_literals" && field != "cost_estimation_mode"
    ensures Looser(field, v, w) <==> Compare(field, v, w) == Loosening
  {
    assert AsNumber(v) == Amount(v) && AsNumber(w) == Amount(w);
  }

  lemma Reversed(field: string, v: Guard, w: Guard)
    ensures Compare(field, v, w) == Tightening <==> Compare(field, w, v) == Loosening
  {
  }

  lemma LooserIff(field: string, v: Guard, w: Guard)
    ensures Looser(field, v, w) <==> Compare(field, v, w) == Loosening
    ensures Looser(field, w, v) <==> Compare(field, v, w) == Tightening
  {
    Reversed(field, v, w);
    if field == "log_query_literals" || field == "cost_estimation_mode" {
      LooserSpecial(v, w);
      LooserSpecial(w, v);
    } else {
      LooserCap(field, v, w);
      LooserCap(field, w, v);
    }
  }

  lemma GuardExact(ch: Change, c: string, s: Sides, field: string)
    ensures ch in GuardChange(c, s.b, s.a, field) <==> GuardrailEntry(ch, c, s, field)
  {
    SettingIs(s.b, field);
    SettingIs(s.a, field);
    LooserIff(field, Setting(s.b, field), Setting(s.a, field));
  }

  lemma LabelsExact(ch: Change, c: string, s: Sides)
    ensures ch in SensitivityChange(c, s.b, s.a) <==> LabelsEntry(ch, c, s)
  {
    var m, n := s.b.sensitivities, s.a.sensitivities;
    forall l ensures (l in AsSet(m) <==> l in m) && (l in AsSet(n) <==> l in n) {
    }
    if forall l :: l in m <==> l in n {
      assert AsSet(m) == AsSet(n);
    }
  }

  lemma GuardrailsExact(ch: Change, c: string, s: Sides, fields: seq<string>)
    ensures ch in GuardChanges(c, s.b, s.a, fields) <==> SomeGuardrail(ch, c, s, fields)
  {
    InFlatMap(fields, ByField(c, s.b, s.a), ch);
    LabelsExact(ch, c, s);
    forall field ensures ch in ByField(c, s.b, s.a)(field) <==> GuardrailEntry(ch, c, s, field) {
      GuardExact(ch, c, s, field);
    }
  }

  // ---------------------------------------------------- a connection

  ghost predicate InnerEntry(ch: Change, c: string, s: Sides, fields: seq<string>) {
    || SomeGuardrail(ch, c, s, fields)
    || SomeTable(ch, c, s)
    || SomeColumn(ch, c, s)
    || SomeFilter(ch, c, s)
    || SomeMask(ch, c, s)
    || SomePurpose(ch, c, s)
    || GroupEntry(ch, c, s)
  }

  lemma InnerExact(ch: Change, c: string, s: Sides, fields: seq<string>)
    ensures ch in InnerChanges(c, s.pb, s.b, s.pa, s.a, fields) <==> InnerEntry(ch, c, s, fields)
  {
    var u := Universe(s);
    InSeven(GuardChanges(c, s.b, s.a, fields), TableChanges(c, u, s.b, s.a), ColumnChanges(c, AllowedInBoth(u, s.b, s.a), s.b, s.a),
            FilterChanges(c, s.b, s.a), MaskChanges(c, u, s.b, s.a), PurposeChanges(c, s.b, s.a), JoinGroupChange(c, s.pb, s.pa), ch);
    GuardrailsExact(ch, c, s, fields);
    TablesExact(ch, c, s);
    ColumnsExact(ch, c, s);
    FiltersExact(ch, c, s);
    MasksExact(ch, c, s);
    PurposesExact(ch, c, s);
  }

  function Sight(pr: Profile, p: Policy): Option<Shown> {
    if pr.enabled && p.enabled then Says("visible") else Says("hidden")
  }

  ghost predicate SharedEntry(ch: Change, c: string, s: Sides, fields: seq<string>) {
    var seen, stays := s.pb.enabled && s.b.enabled, s.pa.enabled && s.a.enabled;
    || (seen && !stays && ch == Change(ConnectionVisibility, c, None, Modified, Tightening, Says("visible"), Says("hidden")))
    || (!seen && stays && ch == Change(ConnectionVisibility, c, None, Modified, Loosening, Says("hidden"), Says("visible")))
    || (seen && stays && InnerEntry(ch, c, s, fields))
  }

  lemma SharedExact(ch: Change, c: string, s: Sides, fields: seq<string>)
    ensures ch in SharedChanges(c, s.pb, s.b, s.pa, s.a, fields) <==> SharedEntry(ch, c, s, fields)
  {
    InnerExact(ch, c, s, fields);
  }

  /** What the entry says holds, b and a being the policies in force. */
  ghost predicate Entry(ch: Change, active: Context, candidate: Context, b: Policy, a: Policy, fields: seq<string>) {
    var c := ch.connection;
    if c in active.registry && c in candidate.registry then
      SharedEntry(ch, c, Sides(active.registry[c], b, candidate.registry[c], a), fields)
    else if c in active.registry then
      ch == Change(ConnectionVisibility, c, None, Removed, Tightening, Sight(active.registry[c], b), Says("absent"))
    else
      && c in candidate.registry
      && ch == Change(ConnectionVisibility, c, None, Added,
                      if candidate.registry[c].enabled && a.enabled then Loosening else Neutral,
                      Says("absent"), Sight(candidate.registry[c], a))
  }

  lemma EntryExact(ch: Change, active: Context, candidate: Context, who: Option<string>, fields: seq<string>)
    ensures ch in AllChanges(active, candidate, who, fields) <==>
            Entry(ch, active, candidate, Resolve(active.policies, ch.connection, who), Resolve(candidate.policies, ch.connection, who), fields)
  {
    var c := ch.connection;
    var b, a := Resolve(active.policies, c, who), Resolve(candidate.policies, c, who);
    InAllChanges(active, candidate, who, fields, ch);
    if c in active.registry && c in candidate.registry {
      SharedExact(ch, c, Sides(active.registry[c], b, candidate.registry[c], a), fields);
    }
  }

  // -------------------------------------------------------- the report

  ghost predicate Holds(ch: Change, active: Context, candidate: Context, who: Option<string>, fields: seq<string>) {
    exists b, a ::
      && Governs(active.policies, ch.connection, who, b) && Governs(candidate.policies, ch.connection, who, a)
      && Entry(ch, active, candidate, b, a, fields)
  }

  lemma HoldsIff(ch: Change, active: Context, candidate: Context, who: Option<string>, fields: seq<string>)
    ensures ch in AllChanges(active, candidate, who, fields) <==> Holds(ch, active, candidate, who, fields)
  {
    var c := ch.connection;
    EntryExact(ch, active, candidate, who, fields);
    ResolveIff(active.policies, c, who, Resolve(active.policies, c, who));
    ResolveIff(candidate.policies, c, who, Resolve(candidate.policies, c, who));
    if Holds(ch, active, candidate, who, fields) {
      var b, a :| Governs(active.policies, c, who, b) && Governs(candidate.policies, c, who, a)
                  && Entry(ch, active, candidate, b, a, fields);
      ResolveIff(active.policies, c, who, b);
      ResolveIff(candidate.policies, c, who, a);
    }
  }

  // Everything a report says is true of the policies in force, and a report that
  // was not cut says everything there is to say. One that was cut is full.
  lemma ReportExact(active: Context, candidate: Context, who: Option<string>, fields: seq<string>, max: nat, ch: Change)
    ensures var r := AccessReportOf(active, candidate, who, fields, max);
            && (ch in r.changes ==> Holds(ch, active, candidate, who, fields))
            && (Holds(ch, active, candidate, who, fields) && ch !in r.changes ==> r.truncated && |r.changes| == max)
  {
    var r, all := AccessReportOf(active, candidate, who, fields, max), AllChanges(active, candidate, who, fields);
    HoldsIff(ch, active, candidate, who, fields);
    KeptAndDropped(all, max);
    if ch in r.changes {
      assert ch in multiset(r.changes) && ch in multiset(all);
    }
    if !r.truncated {
      UntruncatedHoldsAll(active, candidate, who, fields, max, ch);
    }
  }

  // ---------------------------------------------------------- the notes

  /** Visible on both sides, b and a being the policies in force. */
  ghost predicate SeenUnder(c: string, active: Context, candidate: Context, who: Option<string>, b: Policy, a: Policy) {
    && Governs(active.policies, c, who, b) && Governs(candidate.policies, c, who, a)
    && c in active.registry && active.registry[c].enabled && b.enabled
    && c in candidate.registry && candidate.registry[c].enabled && a.enabled
  }

  ghost predicate AnyUnder(m: map<string, set<string>>, key: string) {
    exists col :: Under(m, key, col)
  }

  ghost predicate Warns(n: Note, b: Policy, a: Policy) {
    match n
    case TablesToggled(_) => (b.allowedTables == {}) != (a.allowedTables == {})
    case ColumnsToggled(_) => AnyUnder(b.allowedColumns, "*") != AnyUnder(a.allowedColumns, "*")
    case WildcardMasks(_) => "*" in b.masks || "*" in a.masks
    case _ => false
  }

  ghost predicate NoteHolds(n: Note, active: Context, candidate: Context, who: Option<string>) {
    if n == OverridesChanged then who == None && active.policies.principals != candidate.policies.principals
    else n != Truncated && exists b, a :: SeenUnder(n.connection, active, candidate, who, b, a) && Warns(n, b, a)
  }

  lemma AnyUnderIff(m: map<string, set<string>>)
    ensures AnyUnder(m, "*") <==> AllColumnsList(m) != {}
  {
    if AllColumnsList(m) != {} {
      var col :| col in AllColumnsList(m);
      assert Under(m, "*", col);
    }
  }

  function AllColumnsList(m: map<string, set<string>>): set<string> {
    PolicyModel.Entry(m, WILDCARD)
  }

  lemma SeenIff(c: string, active: Context, candidate: Context, who: Option<string>, b: Policy, a: Policy)
    ensures SeenUnder(c, active, candidate, who, b, a) <==>
            && BothVisible(c, active, candidate, who)
            && b == Resolve(active.policies, c, who) && a == Resolve(candidate.policies, c, who)
  {
    ResolveIff(active.policies, c, who, b);
    ResolveIff(candidate.policies, c, who, a);
  }

  lemma NoteHoldsIff(n: Note, active: Context, candidate: Context, who: Option<string>)
    ensures NoteHolds(n, active, candidate, who) <==> NoteDue(n, active, candidate, who)
  {
    if n.TablesToggled? || n.ColumnsToggled? || n.WildcardMasks? {
      var b, a := Resolve(active.policies, n.connection, who), Resolve(candidate.policies, n.connection, who);
      AnyUnderIff(b.allowedColumns);
      AnyUnderIff(a.allowedColumns);
      SeenIff(n.connection, active, candidate, who, b, a);
      if NoteHolds(n, active, candidate, who) {
        var b', a' :| SeenUnder(n.connection, active, candidate, who, b', a') && Warns(n, b', a');
        SeenIff(n.connection, active, candidate, who, b', a');
      }
    }
  }

  // A report carries exactly the warnings that hold, and says when it was cut.
  lemma ReportNotes(active: Context, candidate: Context, who: Option<string>, fields: seq<string>, max: nat, n: Note)
    ensures var r := AccessReportOf(active, candidate, who, fields, max);
            n in r.notes <==> NoteHolds(n, active, candidate, who) || (n == Truncated && r.truncated)
  {
    NoteHoldsIff(n, active, candidate, who);
    NoteKept(active, candidate, who, fields, max, n);
  }

  // A table whose accessibility moves under the policies in force, whatever its
  // name, is listed, or the flipped allow-list flag is in the same direction, or
  // the report warns about unnamed tables or says that it was cut.
  lemma MovedTableReported(active: Context, candidate: Context, who: Option<string>, fields: seq<string>, max: nat,
                           c: string, b: Policy, a: Policy, t: string)
    requires SeenUnder(c, active, candidate, who, b, a) && MayRead(b, t) != MayRead(a, t)
    requires "require_explicit_allowlist" in fields
    ensures var r, up := AccessReportOf(active, candidate, who, fields, max), MayRead(a, t);
            || Flip(TableAccess, c, t, up) in r.changes
            || Change(Guardrail, c, Some("require_explicit_allowlist"), Modified, if up then Loosening else Tightening,
                      Some(Value(Switch(up))), Some(Value(Switch(!up)))) in r.changes
            || TablesToggled(c) in r.notes || Truncated in r.notes
  {
    SeenIff(c, active, candidate, who, b, a);
    ReportCoversTables(active, candidate, who, fields, max, c, t);
  }
}
