// A query as it is dumped before it is recorded: every field that is not null, in
// declaration order.
module DumpedQuery {
  import opened Json

  /** The field names of a dumped query, and the constants in it. */
  datatype Keys = Keys(
    table: string, tableAlias: string, select: string, distinct: string, joins: string, where: string, terms: string,
    group: string, order: string, offset: string, correlate: string, ctes: string, purpose: string,
    col: string, unit: string, alias: string, op: string, value: string, param: string,
    month: string, eq: string, slot: string)

  const KEYS := Keys(
    "from_table", "from_alias", "select", "distinct", "joins", "where", "and_terms",
    "group_by", "order_by", "offset", "correlate", "ctes", "purpose",
    "col", "granularity", "alias", "op", "value", "param",
    "month", "eq", "offset")

  function Optional(key: string, value: Option<Json>, rest: Fields): Fields {
    if value.Some? then Field(key, value.value, rest) else rest
  }

  function Dump(k: Keys, table: string, tableAlias: Option<Json>, select: Items, where: Option<Json>,
                groupBy: Items, offset: Json, purpose: Option<Json>): Json {
    Obj(Field(k.table, Str(table), Optional(k.tableAlias, tableAlias, Body(k, select, where, groupBy, offset, purpose))))
  }

  function Body(k: Keys, select: Items, where: Option<Json>, groupBy: Items, offset: Json, purpose: Option<Json>): Fields {
    Field(k.select, Arr(select), AfterSelect(k, where, groupBy, offset, purpose))
  }

  function AfterSelect(k: Keys, where: Option<Json>, groupBy: Items, offset: Json, purpose: Option<Json>): Fields {
    Field(k.distinct, Bool(false),
    Field(k.joins, Arr(NoItems), Optional(k.where, where, AfterWhere(k, groupBy, offset, purpose))))
  }

  function AfterWhere(k: Keys, groupBy: Items, offset: Json, purpose: Option<Json>): Fields {
    Field(k.group, Arr(groupBy),
    Field(k.order, Arr(NoItems),
    Field(k.offset, offset, AfterOffset(k, purpose))))
  }

  function AfterOffset(k: Keys, purpose: Option<Json>): Fields {
    Field(k.correlate, Arr(NoItems),
    Field(k.ctes, Arr(NoItems), Optional(k.purpose, purpose, NoFields)))
  }
}
