// The resolved policy and the layered policy store, as far as the access diff
// reads them. All identifiers are already case-folded.
module PolicyModel {
  import opened Json

  const WILDCARD := "*"

  datatype MaskKind = Hash | Null | Last | Bucket

  datatype Mask = Mask(column: string, kind: MaskKind, length: Option<int>, bucketSize: Option<int>)

  /** `value` is a static literal; `claim` names a claim of the caller. */
  datatype RowFilter = RowFilter(table: string, column: string, value: Option<string>, claim: Option<string>)

  datatype Guard = Unset | Number(n: real) | Switch(on: bool) | CostMode(observe: bool)

  /** A narrowing layered on when a purpose is declared. */
  datatype Delta = Delta(
    deniedTables: set<string>, deniedColumns: map<string, set<string>>,
    filters: seq<RowFilter>, masks: map<string, seq<Mask>>)

  const EXPLICIT := "require_explicit_allowlist"

  /** `writes` stands for the nested write policy. */
  datatype Policy = Policy(
    enabled: bool,
    allowedTables: set<string>, deniedTables: set<string>,
    allowedColumns: map<string, set<string>>, deniedColumns: map<string, set<string>>,
    masks: map<string, seq<Mask>>, filters: seq<RowFilter>,
    explicitOnly: bool, guards: map<string, Guard>, sensitivities: seq<string>,
    purposes: set<string>, purposePolicies: map<string, Delta>,
    joinGroup: Option<string>, writes: string)

  /** The value of a guardrail field. */
  function GuardOf(p: Policy, field: string): Guard {
    if field == EXPLICIT then Switch(p.explicitOnly)
    else if field in p.guards then p.guards[field] else Unset
  }

  predicate TableAllowed(p: Policy, table: string) {
    && table !in p.deniedTables
    && if p.allowedTables != {} then table in p.allowedTables else !p.explicitOnly
  }

  function Entry(m: map<string, set<string>>, table: string): set<string> {
    if table in m then m[table] else {}
  }

  /** An allow-list governs this table's columns, of its own or for all tables. */
  predicate HasColumnList(p: Policy, table: string) {
    table in p.allowedColumns || WILDCARD in p.allowedColumns
  }

  function ColumnList(p: Policy, table: string): set<string> {
    if table in p.allowedColumns then p.allowedColumns[table] else Entry(p.allowedColumns, WILDCARD)
  }

  predicate ColumnAllowed(p: Policy, table: string, column: string) {
    && column !in Entry(p.deniedColumns, table) + Entry(p.deniedColumns, WILDCARD)
    && if HasColumnList(p, table) then column in ColumnList(p, table) else !p.explicitOnly
  }

  function FirstMask(masks: seq<Mask>, column: string): Option<Mask> {
    if masks == [] then None
    else if masks[0].column == column then Some(masks[0])
    else FirstMask(masks[1..], column)
  }

  function MaskIn(p: Policy, key: string, column: string): Option<Mask> {
    if key in p.masks then FirstMask(p.masks[key], column) else None
  }

  /** A table's own masks win over the wildcard's. */
  function ColumnMask(p: Policy, table: string, column: string): Option<Mask> {
    var own := MaskIn(p, table, column);
    if own.Some? then own else MaskIn(p, WILDCARD, column)
  }

  /** The filter a dict keyed by table and column keeps: the last one. */
  function LastFilter(filters: seq<RowFilter>, table: string, column: string): Option<RowFilter> {
    if filters == [] then None
    else
      var n := |filters| - 1;
      if filters[n].table == table && filters[n].column == column then Some(filters[n])
      else LastFilter(filters[..n], table, column)
  }

  // --------------------------------------------------------- policy store

  /** A per-principal override: the fields it sets. */
  datatype Patch = Patch(
    enabled: Option<bool>,
    allowedTables: Option<set<string>>, deniedTables: Option<set<string>>,
    allowedColumns: Option<map<string, set<string>>>, deniedColumns: Option<map<string, set<string>>>,
    masks: Option<map<string, seq<Mask>>>, filters: Option<seq<RowFilter>>,
    explicitOnly: Option<bool>, guards: map<string, Guard>, sensitivities: Option<seq<string>>,
    purposes: Option<set<string>>, purposePolicies: Option<map<string, Delta>>,
    joinGroup: Option<Option<string>>, writes: Option<string>)

  function Apply(p: Policy, patch: Patch): Policy {
    Policy(
      Or(patch.enabled, p.enabled),
      Or(patch.allowedTables, p.allowedTables), Or(patch.deniedTables, p.deniedTables),
      Or(patch.allowedColumns, p.allowedColumns), Or(patch.deniedColumns, p.deniedColumns),
      Or(patch.masks, p.masks), Or(patch.filters, p.filters),
      Or(patch.explicitOnly, p.explicitOnly), p.guards + patch.guards, Or(patch.sensitivities, p.sensitivities),
      Or(patch.purposes, p.purposes), Or(patch.purposePolicies, p.purposePolicies),
      Or(patch.joinGroup, p.joinGroup), Or(patch.writes, p.writes))
  }

  datatype Store = Store(
    default: Policy, overrides: map<string, Policy>, principals: map<string, map<string, Patch>>)

  /** `PolicyStore.get`: a connection entry wins over the wildcard entry. */
  function Resolve(s: Store, connection: string, principal: Option<string>): Policy {
    var base := if connection in s.overrides then s.overrides[connection] else s.default;
    if principal.None? || principal.value !in s.principals then base
    else
      var per := s.principals[principal.value];
      if connection in per then Apply(base, per[connection])
      else if WILDCARD in per then Apply(base, per[WILDCARD])
      else base
  }

  datatype Profile = Profile(enabled: bool, knownTables: set<string>, joinGroup: string)

  /** The group that decides at request time which connections may be joined: the
      policy's own group unless it is missing or empty. */
  function EffectiveGroup(profile: Profile, p: Policy): string {
    if p.joinGroup.Some? && p.joinGroup.value != "" then p.joinGroup.value else profile.joinGroup
  }

  datatype Context = Context(registry: map<string, Profile>, policies: Store)
}
