// `compute_access_diff`: what changes for callers between two configurations,
// category by category.
module AccessDiff {
  import opened Json
  import opened PolicyModel
  import opened StableSort

  datatype Category =
    | ConnectionVisibility | MandatoryFilter | PurposeAccess | TableAccess
    | ColumnAccess | ColumnMasking | Guardrail | JoinGroup

  datatype ChangeType = Added | Removed | Modified

  datatype Direction = Loosening | Tightening | Neutral

  /** What a change shows as before and after; never a static filter value. */
  datatype Shown = Word(s: string) | Value(g: Guard) | Labels(ls: seq<string>) | MaskShown(m: Mask)

  datatype Change = Change(
    category: Category, connection: string, subject: Option<string>, kind: ChangeType,
    direction: Direction, before: Option<Shown>, after: Option<Shown>)

  /** Reasons the list may not be all there is. */
  datatype Note = TablesToggled(connection: string) | ColumnsToggled(connection: string)
                | WildcardMasks(connection: string) | OverridesChanged | Truncated

  function FlatMap<T, U>(names: seq<T>, f: T -> seq<U>): seq<U> {
    if names == [] then [] else FlatMap(names[..|names| - 1], f) + f(names[|names| - 1])
  }

  // ---------------------------------------------------------- guardrails

  datatype Permissiveness = Finite(x: real) | Unlimited

  predicate More(a: Permissiveness, b: Permissiveness) {
    if a.Unlimited? then !b.Unlimited? else b.Finite? && a.x > b.x
  }

  predicate Inverted(field: string) {
    field in {"min_group_size", "quota_window_seconds", "disclosure_budget_window_seconds", "templates_only", EXPLICIT}
  }

  function AsNumber(v: Guard): real {
    match v
    case Number(n) => n
    case Switch(on) => if on then 1.0 else 0.0
    case _ => 0.0
  }

  predicate Truthy(v: Guard) {
    match v
    case Unset => false
    case Number(n) => n != 0.0
    case Switch(on) => on
    case CostMode(_) => true
  }

  /** `_guardrail_perm`: higher is more permissive. */
  function Perm(field: string, v: Guard): Permissiveness {
    if field == "log_query_literals" then Finite(if Truthy(v) then 1.0 else 0.0)
    else if field == "cost_estimation_mode" then Finite(if v == CostMode(true) then 1.0 else 0.0)
    else if v.Unset? then Unlimited
    else if Inverted(field) then Finite(-AsNumber(v))
    else Finite(AsNumber(v))
  }

  function Compare(field: string, before: Guard, after: Guard): Direction {
    if More(Perm(field, after), Perm(field, before)) then Loosening
    else if More(Perm(field, before), Perm(field, after)) then Tightening
    else Neutral
  }

  function GuardChange(c: string, before: Policy, after: Policy, field: string): seq<Change> {
    var b, a := GuardOf(before, field), GuardOf(after, field);
    if b == a then []
    else [Change(Guardrail, c, Some(field), Modified, Compare(field, b, a), Some(Value(b)), Some(Value(a)))]
  }

  function AsSet(ls: seq<string>): set<string> {
    set l | l in ls
  }

  function SensitivityChange(c: string, before: Policy, after: Policy): seq<Change> {
    if AsSet(before.sensitivities) == AsSet(after.sensitivities) then []
    else
      var nb, na := |before.sensitivities|, |after.sensitivities|;
      [Change(Guardrail, c, Some("approval_sensitivities"), Modified,
              if na > nb then Tightening else if na < nb then Loosening else Neutral,
              Some(Labels(Sort(before.sensitivities, NameLe))), Some(Labels(Sort(after.sensitivities, NameLe))))]
  }

  /** `fields` is the derived list of guardrail fields. */
  function GuardChanges(c: string, before: Policy, after: Policy, fields: seq<string>): seq<Change> {
    FlatMap(fields, ByField(c, before, after)) + SensitivityChange(c, before, after)
  }

  function ByField(c: string, before: Policy, after: Policy): string -> seq<Change> {
    f => GuardChange(c, before, after, f)
  }

  // ------------------------------------------------- tables and columns

  function FilterTables(p: Policy): set<string> {
    set f | f in p.filters :: f.table
  }

  function NamedTables(profile: Profile, p: Policy): set<string> {
    profile.knownTables + p.allowedTables + p.deniedTables
    + (p.allowedColumns.Keys - {WILDCARD}) + (p.deniedColumns.Keys - {WILDCARD}) + FilterTables(p)
  }

  function FilterColumns(p: Policy, table: string): set<string> {
    set f | f in p.filters && f.table == table :: f.column
  }

  function NamedColumns(p: Policy, table: string): set<string> {
    Entry(p.allowedColumns, table) + Entry(p.allowedColumns, WILDCARD)
    + Entry(p.deniedColumns, table) + Entry(p.deniedColumns, WILDCARD) + FilterColumns(p, table)
  }

  function AccessWord(allowed: bool): Option<Shown> {
    Some(Word(if allowed then "allowed" else "denied"))
  }

  function AccessChange(category: Category, c: string, subject: string, before: bool, after: bool): seq<Change> {
    if before == after then []
    else [Change(category, c, Some(subject), if after then Added else Removed, if after then Loosening else Tightening,
                 AccessWord(before), AccessWord(after))]
  }

  function TableChange(c: string, before: Policy, after: Policy, table: string): seq<Change> {
    AccessChange(TableAccess, c, table, TableAllowed(before, table), TableAllowed(after, table))
  }

  ghost function TableChanges(c: string, universe: set<string>, before: Policy, after: Policy): seq<Change> {
    FlatMap(Listing(universe), ByTable(c, before, after))
  }

  function ByTable(c: string, before: Policy, after: Policy): string -> seq<Change> {
    t => TableChange(c, before, after, t)
  }

  predicate TablesNoted(before: Policy, after: Policy) {
    (before.allowedTables != {}) != (after.allowedTables != {})
  }

  function AllowedInBoth(universe: set<string>, before: Policy, after: Policy): set<string> {
    set t | t in universe && TableAllowed(before, t) && TableAllowed(after, t)
  }

  function Dotted(table: string, column: string): string {
    table + "." + column
  }

  function ColumnChange(c: string, before: Policy, after: Policy, table: string, column: string): seq<Change> {
    AccessChange(ColumnAccess, c, Dotted(table, column),
                 ColumnAllowed(before, table, column), ColumnAllowed(after, table, column))
  }

  ghost function ColumnChangesOf(c: string, before: Policy, after: Policy, table: string): seq<Change> {
    FlatMap(Listing(NamedColumns(before, table) + NamedColumns(after, table)), ByColumn(c, before, after, table))
  }

  function ByColumn(c: string, before: Policy, after: Policy, table: string): string -> seq<Change> {
    col => ColumnChange(c, before, after, table, col)
  }

  ghost function ByColumnTable(c: string, before: Policy, after: Policy): string -> seq<Change> {
    t => ColumnChangesOf(c, before, after, t)
  }

  ghost function ColumnChanges(c: string, tables: set<string>, before: Policy, after: Policy): seq<Change> {
    FlatMap(Listing(tables), ByColumnTable(c, before, after))
  }

  predicate ColumnsNoted(before: Policy, after: Policy) {
    (Entry(before.allowedColumns, WILDCARD) != {}) != (Entry(after.allowedColumns, WILDCARD) != {})
  }

  // ------------------------------------------------------ row filters

  function FilterSource(f: RowFilter): Option<Shown> {
    Some(Word(if f.claim.Some? then "claim:" + f.claim.value else "configured_literal"))
  }

  function FilterChange(c: string, before: Policy, after: Policy, table: string, column: string): seq<Change> {
    FilterDifference(c, Dotted(table, column),
                     LastFilter(before.filters, table, column), LastFilter(after.filters, table, column))
  }

  /** A static value is compared but never shown. */
  predicate SameFilter(b: RowFilter, a: RowFilter) {
    FilterSource(b) == FilterSource(a) && (b.claim.None? && a.claim.None? ==> b.value == a.value)
  }

  function FilterDifference(c: string, what: string, b: Option<RowFilter>, a: Option<RowFilter>): seq<Change> {
    if b.Some? && a.None? then
      [Change(MandatoryFilter, c, Some(what), Removed, Loosening, FilterSource(b.value), None)]
    else if b.None? && a.Some? then
      [Change(MandatoryFilter, c, Some(what), Added, Tightening, None, FilterSource(a.value))]
    else if b.Some? && a.Some? && !SameFilter(b.value, a.value) then
      [Change(MandatoryFilter, c, Some(what), Modified, Neutral, FilterSource(b.value), FilterSource(a.value))]
    else []
  }

  ghost function FilterChangesOf(c: string, before: Policy, after: Policy, table: string): seq<Change> {
    FlatMap(Listing(FilterColumns(before, table) + FilterColumns(after, table)), ByFilter(c, before, after, table))
  }

  function ByFilter(c: string, before: Policy, after: Policy, table: string): string -> seq<Change> {
    col => FilterChange(c, before, after, table, col)
  }

  ghost function ByFilterTable(c: string, before: Policy, after: Policy): string -> seq<Change> {
    t => FilterChangesOf(c, before, after, t)
  }

  ghost function FilterChanges(c: string, before: Policy, after: Policy): seq<Change> {
    FlatMap(Listing(FilterTables(before) + FilterTables(after)), ByFilterTable(c, before, after))
  }

  // ------------------------------------------------------------ masks

  function ColumnsOf(masks: seq<Mask>): set<string> {
    set m | m in masks :: m.column
  }

  function MaskedColumns(p: Policy, table: string): set<string> {
    (if table in p.masks then ColumnsOf(p.masks[table]) else {}) +
    (if WILDCARD in p.masks then ColumnsOf(p.masks[WILDCARD]) else {})
  }

  function MaskDisplay(m: Option<Mask>): Option<Shown> {
    if m.Some? then Some(MaskShown(m.value)) else None
  }

  function MaskChange(c: string, before: Policy, after: Policy, table: string, column: string): seq<Change> {
    var b, a := ColumnMask(before, table, column), ColumnMask(after, table, column);
    if b == a then []
    else
      [Change(ColumnMasking, c, Some(Dotted(table, column)),
              if a.None? then Removed else if b.None? then Added else Modified,
              if a.None? then Loosening else if b.None? then Tightening else Neutral,
              MaskDisplay(b), MaskDisplay(a))]
  }

  function MaskTables(p: Policy): set<string> {
    p.masks.Keys - {WILDCARD}
  }

  ghost function MaskChangesOf(c: string, before: Policy, after: Policy, table: string): seq<Change> {
    FlatMap(Listing(MaskedColumns(before, table) + MaskedColumns(after, table)), ByMask(c, before, after, table))
  }

  function ByMask(c: string, before: Policy, after: Policy, table: string): string -> seq<Change> {
    col => MaskChange(c, before, after, table, col)
  }

  ghost function ByMaskTable(c: string, before: Policy, after: Policy): string -> seq<Change> {
    t => MaskChangesOf(c, before, after, t)
  }

  ghost function MaskChanges(c: string, universe: set<string>, before: Policy, after: Policy): seq<Change> {
    FlatMap(Listing(universe + (MaskTables(before) + MaskTables(after))), ByMaskTable(c, before, after))
  }

  predicate MasksNoted(before: Policy, after: Policy) {
    WILDCARD in before.masks || WILDCARD in after.masks
  }

  // --------------------------------------------------------- purposes

  function GateWord(p: Policy): Option<Shown> {
    Some(Word(if p.purposes != {} then "required" else "not required"))
  }

  function GateChange(c: string, before: Policy, after: Policy): seq<Change> {
    if (before.purposes != {}) == (after.purposes != {}) then []
    else [Change(PurposeAccess, c, None, Modified, if after.purposes != {} then Tightening else Loosening,
                 GateWord(before), GateWord(after))]
  }

  function PermitWord(allowed: bool): Option<Shown> {
    Some(Word(if allowed then "allowed" else "not permitted"))
  }

  function PurposeRemoved(c: string, purpose: string): seq<Change> {
    [Change(PurposeAccess, c, Some(purpose), Removed, Tightening, PermitWord(true), PermitWord(false))]
  }

  function PurposeAdded(c: string, purpose: string): seq<Change> {
    [Change(PurposeAccess, c, Some(purpose), Added, Loosening, PermitWord(false), PermitWord(true))]
  }

  function DeltaWord(p: Policy, purpose: string): Option<Shown> {
    if purpose in p.purposePolicies then Some(Word("narrowing configured")) else None
  }

  function DeltaAt(p: Policy, purpose: string): Option<Delta> {
    if purpose in p.purposePolicies then Some(p.purposePolicies[purpose]) else None
  }

  function DeltaChange(c: string, before: Policy, after: Policy, purpose: string): seq<Change> {
    var b, a := DeltaAt(before, purpose), DeltaAt(after, purpose);
    if b == a then []
    else
      [Change(PurposeAccess, c, Some(purpose),
              if a.None? then Removed else if b.None? then Added else Modified,
              if a.None? then Loosening else if b.None? then Tightening else Neutral,
              DeltaWord(before, purpose), DeltaWord(after, purpose))]
  }

  function ByRemovedPurpose(c: string): string -> seq<Change> {
    p => PurposeRemoved(c, p)
  }

  function ByAddedPurpose(c: string): string -> seq<Change> {
    p => PurposeAdded(c, p)
  }

  function ByDelta(c: string, before: Policy, after: Policy): string -> seq<Change> {
    p => DeltaChange(c, before, after, p)
  }

  ghost function DeltaChanges(c: string, before: Policy, after: Policy): seq<Change> {
    FlatMap(Listing(before.purposePolicies.Keys + after.purposePolicies.Keys), ByDelta(c, before, after))
  }

  ghost function PurposeChanges(c: string, before: Policy, after: Policy): seq<Change> {
    GateChange(c, before, after)
    + (FlatMap(Listing(before.purposes - after.purposes), ByRemovedPurpose(c))
       + (FlatMap(Listing(after.purposes - before.purposes), ByAddedPurpose(c))
          + DeltaChanges(c, before, after)))
  }

  // ------------------------------------------------- one connection, all

  function JoinGroupChange(c: string, before: Profile, after: Profile): seq<Change> {
    if before.joinGroup == after.joinGroup then []
    else [Change(JoinGroup, c, None, Modified, Neutral, Some(Word(before.joinGroup)), Some(Word(after.joinGroup)))]
  }

  predicate Visible(profile: Profile, p: Policy) {
    profile.enabled && p.enabled
  }

  function SightWord(visible: bool): Option<Shown> {
    Some(Word(if visible then "visible" else "hidden"))
  }

  const ABSENT: Option<Shown> := Some(Word("absent"))

  /** The seven comparisons inside a connection, in the order they are made. */
  ghost function InnerParts(c: string, pb: Profile, before: Policy, pa: Profile, after: Policy, fields: seq<string>): seq<seq<Change>> {
    var universe := NamedTables(pb, before) + NamedTables(pa, after);
    [GuardChanges(c, before, after, fields),
     TableChanges(c, universe, before, after),
     ColumnChanges(c, AllowedInBoth(universe, before, after), before, after),
     FilterChanges(c, before, after),
     MaskChanges(c, universe, before, after),
     PurposeChanges(c, before, after),
     JoinGroupChange(c, pb, pa)]
  }

  function Concat(parts: seq<seq<Change>>): seq<Change> {
    if parts == [] then [] else Concat(parts[..|parts| - 1]) + parts[|parts| - 1]
  }

  /** Everything inside a connection that is visible before and after. */
  ghost function InnerChanges(c: string, pb: Profile, before: Policy, pa: Profile, after: Policy, fields: seq<string>): seq<Change> {
    Concat(InnerParts(c, pb, before, pa, after, fields))
  }

  function SightChange(c: string, before: bool, after: bool): seq<Change> {
    if before == after then []
    else [Change(ConnectionVisibility, c, None, Modified, if after then Loosening else Tightening,
                 SightWord(before), SightWord(after))]
  }

  function RemovedConnection(c: string, visible: bool): seq<Change> {
    [Change(ConnectionVisibility, c, None, Removed, Tightening, SightWord(visible), ABSENT)]
  }

  function AddedConnection(c: string, visible: bool): seq<Change> {
    [Change(ConnectionVisibility, c, None, Added, if visible then Loosening else Neutral, ABSENT, SightWord(visible))]
  }

  ghost function SharedChanges(c: string, pb: Profile, before: Policy, pa: Profile, after: Policy, fields: seq<string>): seq<Change> {
    var vb, va := Visible(pb, before), Visible(pa, after);
    if vb && va then SightChange(c, vb, va) + InnerChanges(c, pb, before, pa, after, fields)
    else SightChange(c, vb, va)
  }

  ghost function ConnectionChanges(c: string, active: Context, candidate: Context, who: Option<string>, fields: seq<string>): seq<Change> {
    var before, after := Resolve(active.policies, c, who), Resolve(candidate.policies, c, who);
    if c in active.registry && c !in candidate.registry then RemovedConnection(c, Visible(active.registry[c], before))
    else if c !in active.registry && c in candidate.registry then AddedConnection(c, Visible(candidate.registry[c], after))
    else if c !in active.registry then []
    else SharedChanges(c, active.registry[c], before, candidate.registry[c], after, fields)
  }

  /** Every change, before sorting and truncation. */
  ghost function AllChanges(active: Context, candidate: Context, who: Option<string>, fields: seq<string>): seq<Change> {
    FlatMap(Listing(active.registry.Keys + candidate.registry.Keys), ByConnection(active, candidate, who, fields))
  }

  ghost function ByConnection(active: Context, candidate: Context, who: Option<string>, fields: seq<string>): string -> seq<Change> {
    c => ConnectionChanges(c, active, candidate, who, fields)
  }
}
