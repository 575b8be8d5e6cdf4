// Where the alias-free normal form stops: strings that read as tokens, and
// references qualified by an alias.
module AliasLimits {
  import opened Json
  import opened Text
  import opened AliasCanonical
  import opened DumpedQuery

  function Image(m: Mapping, x: string): string {
    if x in m then m[x] else x
  }

  ghost predicate SameOn(strings: set<string>, m: Mapping, m': Mapping) {
    forall x :: x in strings ==> Image(m, x) == Image(m', x)
  }

  // Two replacements give one tree exactly when they agree on its strings.
  lemma {:induction false} SameReplaceIff(node: Json, m: Mapping, m': Mapping)
    ensures Replace(node, m) == Replace(node, m') <==> SameOn(Aliases(node) + Leaves(node), m, m')
  {
    match node
    case Obj(fields) => SameReplaceFieldsIff(fields, m, m');
    case Arr(items) => SameReplaceItemsIff(items, m, m');
    case _ =>
  }

  lemma {:induction false} SameReplaceItemsIff(items: Items, m: Mapping, m': Mapping)
    ensures ReplaceItems(items, m) == ReplaceItems(items, m') <==> SameOn(AliasesOfItems(items) + LeavesOfItems(items), m, m')
  {
    if items.Item? {
      SameReplaceIff(items.head, m, m');
      SameReplaceItemsIff(items.tail, m, m');
    }
  }

  lemma {:induction false} SameReplaceFieldsIff(fields: Fields, m: Mapping, m': Mapping)
    ensures ReplaceFields(fields, m) == ReplaceFields(fields, m') <==> SameOn(AliasesOfFields(fields) + LeavesOfFields(fields), m, m')
  {
    match fields
    case NoFields =>
    case Field(key, value, rest) =>
      SameReplaceIff(value, m, m');
      SameReplaceFieldsIff(rest, m, m');
  }

  /** First m, then m', on the strings of a tree. */
  function Composed(strings: set<string>, m: Mapping, m': Mapping): Mapping {
    map x | x in strings :: Image(m', Image(m, x))
  }

  lemma ReplaceComposed(node: Json, m: Mapping, m': Mapping)
    ensures Replace(Replace(node, m), m') == Replace(node, Composed(Aliases(node) + Leaves(node), m, m'))
  {
    ReplaceTwice(node, m, Composed(Aliases(node) + Leaves(node), m, m'), m');
  }

  // ------------------------------------------------- qualified references

  /** The part of a reference before its first dot. */
  function Qualifier(x: string): (h: string)
    ensures |h| <= |x| && x[..|h|] == h && '.' !in h
  {
    if x == "" || x[0] == '.' then "" else [x[0]] + Qualifier(x[1..])
  }

  /** A column reference qualified by an alias of the query. */
  predicate Qualified(x: string, rho: Mapping) {
    '.' in x && Qualifier(x) in rho
  }

  /** What renaming an alias means for a reference: the alias itself, or the
      qualifier of a dotted reference. */
  function Renamed(x: string, rho: Mapping): string {
    if x in rho then rho[x]
    else if Qualified(x, rho) then rho[Qualifier(x)] + x[|Qualifier(x)|..]
    else x
  }

  /** Renaming the aliases of a query throughout. */
  function FullRenaming(s: Json, rho: Mapping): Mapping {
    map x | x in Aliases(s) + Leaves(s) :: Renamed(x, rho)
  }

  /** An alias is a bare identifier. */
  ghost predicate DotFree(rho: Mapping) {
    forall a :: a in rho ==> '.' !in a && '.' !in rho[a]
  }

  /** Some column reference is qualified by an alias whose name changes. */
  ghost predicate RenamesQualifier(s: Json, rho: Mapping) {
    exists x :: x in Leaves(s) && Qualified(x, rho) && rho[Qualifier(x)] != Qualifier(x)
  }

  lemma QualifierKept(x: string, rho: Mapping)
    requires DotFree(rho) && Qualified(x, rho)
    ensures x !in rho && x !in rho.Values && '.' in Renamed(x, rho)
    ensures Renamed(x, rho) == x <==> rho[Qualifier(x)] == Qualifier(x)
  {
    var h := Qualifier(x);
    var tail := x[|h|..];
    assert x == h + tail;
    assert '.' in tail;
    if rho[h] + tail == x {
      assert |rho[h]| == |h|;
      assert rho[h] == (rho[h] + tail)[..|h|];
    }
  }

  lemma UnqualifiedRenaming(s: Json, rho: Mapping)
    requires IsRenaming(s, rho) && DotFree(rho) && !RenamesQualifier(s, rho)
    ensures Replace(s, FullRenaming(s, rho)) == Replace(s, rho)
  {
    var full := FullRenaming(s, rho);
    forall x | x in Aliases(s) + Leaves(s) ensures Image(full, x) == Image(rho, x) {
      if x !in rho && Qualified(x, rho) {
        QualifierKept(x, rho);
      }
    }
    SameReplaceIff(s, full, rho);
  }

  lemma RenamedAliases(s: Json, rho: Mapping)
    requires IsRenaming(s, rho) && DotFree(rho)
    ensures Aliases(Replace(s, FullRenaming(s, rho))) == rho.Values
  {
    var full := FullRenaming(s, rho);
    ReplaceAliases(s, full);
    assert forall a :: a in rho ==> full[a] == rho[a];
    assert (set a | a in Aliases(s) :: full[a]) == rho.Values;
  }

  // A qualified reference is in neither numbering, so its text stays in both trees.
  lemma QualifierShows(s: Json, rho: Mapping, x: string)
    requires IsRenaming(s, rho) && DotFree(rho) && x in Leaves(s) && Qualified(x, rho)
    requires Canonical(Replace(s, FullRenaming(s, rho))) == Canonical(s)
    ensures rho[Qualifier(x)] == Qualifier(x)
  {
    var full := FullRenaming(s, rho);
    var t := Replace(s, full);
    var ms, mt := Numbering(s), Numbering(t);
    CanonicalIsReplacement(s);
    CanonicalIsReplacement(t);
    RenamedAliases(s, rho);
    ReplaceComposed(s, full, mt);
    SameReplaceIff(s, ms, Composed(Aliases(s) + Leaves(s), full, mt));
    QualifierKept(x, rho);
    QualifierFree(rho, Renamed(x, rho));
    assert Image(ms, x) == Image(mt, full[x]);
  }

  lemma QualifierFree(rho: Mapping, y: string)
    requires DotFree(rho) && '.' in y
    ensures y !in rho.Values
  {
  }

  // Renaming aliases throughout, qualified references included, keeps the tree
  // that is hashed exactly when no renamed alias qualifies a column reference.
  lemma FullRenamingIff(s: Json, rho: Mapping)
    requires IsRenaming(s, rho) && DotFree(rho)
    ensures Canonical(Replace(s, FullRenaming(s, rho))) == Canonical(s) <==> !RenamesQualifier(s, rho)
  {
    if RenamesQualifier(s, rho) {
      var x :| x in Leaves(s) && Qualified(x, rho) && rho[Qualifier(x)] != Qualifier(x);
      if Canonical(Replace(s, FullRenaming(s, rho))) == Canonical(s) {
        QualifierShows(s, rho, x);
      }
    } else {
      UnqualifiedRenaming(s, rho);
      RenamingKeepsCanonical(s, rho);
    }
  }

  // ------------------------------------------------ strings read as tokens

  lemma {:induction false} ReplaceLeaves(node: Json, m: Mapping)
    ensures Leaves(Replace(node, m)) == set x | x in Leaves(node) :: Image(m, x)
  {
    match node
    case Obj(fields) => ReplaceFieldsLeaves(fields, m);
    case Arr(items) => ReplaceItemsLeaves(items, m);
    case Str(s) => assert (set x | x in Leaves(node) :: Image(m, x)) == {Image(m, s)};
    case _ =>
  }

  lemma {:induction false} ReplaceItemsLeaves(items: Items, m: Mapping)
    ensures LeavesOfItems(ReplaceItems(items, m)) == set x | x in LeavesOfItems(items) :: Image(m, x)
  {
    if items.Item? {
      ReplaceLeaves(items.head, m);
      ReplaceItemsLeaves(items.tail, m);
    }
  }

  lemma {:induction false} ReplaceFieldsLeaves(fields: Fields, m: Mapping)
    ensures LeavesOfFields(ReplaceFields(fields, m)) == set x | x in LeavesOfFields(fields) :: Image(m, x)
  {
    match fields
    case NoFields =>
    case Field(key, value, rest) =>
      ReplaceLeaves(value, m);
      ReplaceFieldsLeaves(rest, m);
  }

  // Replacing bare strings only leaves the collected aliases as they are.
  lemma {:induction false} CollectUnchanged(node: Json, inv: Mapping, m: Mapping)
    requires Aliases(node) !! inv.Keys
    ensures Collect(Replace(node, inv), m) == Collect(node, m)
  {
    match node
    case Obj(fields) => CollectFieldsUnchanged(fields, inv, m);
    case Arr(items) => CollectItemsUnchanged(items, inv, m);
    case _ =>
  }

  lemma {:induction false} CollectItemsUnchanged(items: Items, inv: Mapping, m: Mapping)
    requires AliasesOfItems(items) !! inv.Keys
    ensures CollectItems(ReplaceItems(items, inv), m) == CollectItems(items, m)
  {
    if items.Item? {
      CollectUnchanged(items.head, inv, m);
      CollectItemsUnchanged(items.tail, inv, Collect(items.head, m));
    }
  }

  lemma {:induction false} CollectFieldsUnchanged(fields: Fields, inv: Mapping, m: Mapping)
    requires AliasesOfFields(fields) !! inv.Keys
    ensures CollectFields(ReplaceFields(fields, inv), m) == CollectFields(fields, m)
  {
    match fields
    case NoFields =>
    case Field(key, value, rest) =>
      if Defines(key, value) {
        assert Replace(value, inv) == value;
        CollectFieldsUnchanged(rest, inv, SetDefault(m, value.s));
      } else {
        CollectUnchanged(value, inv, m);
        CollectFieldsUnchanged(rest, inv, Collect(value, m));
      }
  }

  /** Each bare string that reads as a token becomes a reference to its alias. */
  ghost function Unconfused(s: Json): (inv: Mapping)
    ensures inv.Keys == (set x | x in Leaves(s) && x !in Aliases(s) && x in Numbering(s).Values)
    ensures forall x :: x in inv ==> inv[x] in Numbering(s) && Numbering(s)[inv[x]] == x
  {
    map x | x in Leaves(s) && x !in Aliases(s) && x in Numbering(s).Values ::
      var a :| a in Numbering(s) && Numbering(s)[a] == x; a
  }

  lemma UnconfusedTwin(s: Json)
    ensures var t := Replace(s, Unconfused(s));
            NoTokenLeaf(t) && Canonical(t) == Canonical(s) && Aliases(t) == Aliases(s)
  {
    var inv := Unconfused(s);
    var t, m := Replace(s, inv), Numbering(s);
    CanonicalIsReplacement(s);
    CollectUnchanged(s, inv, map[]);
    CanonicalIsReplacement(t);
    assert Agree(Aliases(s) + Leaves(s), inv, m, m);
    ReplaceTwice(s, inv, m, m);
    ReplaceLeaves(s, inv);
  }

  lemma TwinIsNoRenaming(s: Json)
    requires !NoTokenLeaf(s)
    ensures !AlphaEquivalent(s, Replace(s, Unconfused(s)))
  {
    var inv := Unconfused(s);
    CanonicalIsReplacement(s);
    var x :| x in Leaves(s) && x !in Aliases(s) && x in Numbering(s).Values;
    forall rho | IsRenaming(s, rho) ensures Replace(s, inv) != Replace(s, rho) {
      SameReplaceIff(s, inv, rho);
      assert Image(rho, x) == x && Image(inv, x) != x;
    }
  }

  /** Equal canonical trees and alias renamings coincide for this pair. */
  ghost predicate Decided(s: Json, t: Json) {
    Canonical(s) == Canonical(t) <==> AlphaEquivalent(s, t)
  }

  // The side condition is exact: the canonical tree decides alpha-equivalence of
  // a skeleton against every unconfused one exactly when it is unconfused itself.
  lemma DecidedIff(s: Json)
    ensures NoTokenLeaf(s) <==> forall t :: NoTokenLeaf(t) ==> Decided(s, t)
  {
    if NoTokenLeaf(s) {
      forall t | NoTokenLeaf(t) ensures Decided(s, t) {
        CanonicalIffAlpha(s, t);
      }
    } else {
      UnconfusedTwin(s);
      TwinIsNoRenaming(s);
      assert !Decided(s, Replace(s, Unconfused(s)));
    }
  }

  // ---------------------------------------------------- dumped queries

  /** Which fields hold aliases. */
  predicate Apart(k: Keys) {
    && AliasKey(k.tableAlias) && AliasKey(k.alias)
    && !AliasKey(k.table) && !AliasKey(k.select) && !AliasKey(k.distinct) && !AliasKey(k.joins) && !AliasKey(k.group)
    && !AliasKey(k.order) && !AliasKey(k.offset) && !AliasKey(k.correlate) && !AliasKey(k.ctes) && !AliasKey(k.purpose)
    && !AliasKey(k.col) && !AliasKey(k.unit) && !AliasKey(k.param)
  }

  lemma KeysAreApart()
    ensures Apart(KEYS)
  {
  }

  /** The skeleton of a query over an aliased table that groups by a month bucket
      and declares a purpose. */
  function Monthly(k: Keys, table: string, tableAlias: string, column: string, alias: string, purpose: string): Json {
    Dump(k, table, Some(Str(tableAlias)), Item(Bucket(k, column, alias), NoItems), None,
         Item(Str(alias), NoItems), Slot(k), Some(Str(purpose)))
  }

  function Slot(k: Keys): Json {
    Obj(Field(k.param, Str(k.slot), NoFields))
  }

  function Bucket(k: Keys, column: string, alias: string): Json {
    Obj(Field(k.col, Str(column), Field(k.unit, Str(k.month), Field(k.alias, Str(alias), NoFields))))
  }

  /** What a list of fields holds: aliases, bare strings, and its effect on a numbering. */
  ghost predicate Holds(fields: Fields, aliases: set<string>, leaves: set<string>, m: Mapping, m': Mapping) {
    AliasesOfFields(fields) == aliases && LeavesOfFields(fields) == leaves && CollectFields(fields, m) == m'
  }

  lemma HoldsPlain(key: string, value: Json, rest: Fields, aliases: set<string>, leaves: set<string>, m: Mapping, m': Mapping)
    requires !AliasKey(key) && Holds(rest, aliases, leaves, Collect(value, m), m')
    ensures Holds(Field(key, value, rest), Aliases(value) + aliases, Leaves(value) + leaves, m, m')
  {
  }

  lemma HoldsAlias(key: string, alias: string, rest: Fields, aliases: set<string>, leaves: set<string>, m: Mapping, m': Mapping)
    requires AliasKey(key) && Holds(rest, aliases, leaves, SetDefault(m, alias), m')
    ensures Holds(Field(key, Str(alias), rest), {alias} + aliases, leaves, m, m')
  {
  }

  lemma BucketStrings(k: Keys, column: string, alias: string, m: Mapping)
    requires Apart(k)
    ensures Aliases(Bucket(k, column, alias)) == {alias} && Leaves(Bucket(k, column, alias)) == {column, k.month}
    ensures Collect(Bucket(k, column, alias), m) == SetDefault(m, alias)
  {
    var f3 := Field(k.alias, Str(alias), NoFields);
    var f2 := Field(k.unit, Str(k.month), f3);
    HoldsAlias(k.alias, alias, NoFields, {}, {}, m, SetDefault(m, alias));
    HoldsPlain(k.unit, Str(k.month), f3, {alias} + {}, {}, m, SetDefault(m, alias));
    HoldsPlain(k.col, Str(column), f2, {} + ({alias} + {}), {k.month} + {}, m, SetDefault(m, alias));
  }

  lemma ListStrings(item: Json, m: Mapping)
    ensures Aliases(Arr(Item(item, NoItems))) == Aliases(item) && Leaves(Arr(Item(item, NoItems))) == Leaves(item)
    ensures Collect(Arr(Item(item, NoItems)), m) == Collect(item, m)
  {
    assert AliasesOfItems(NoItems) == {} && LeavesOfItems(NoItems) == {};
    assert CollectItems(NoItems, Collect(item, m)) == Collect(item, m);
  }

  function MonthlyBody(k: Keys, column: string, alias: string, purpose: string): Fields {
    Body(k, Item(Bucket(k, column, alias), NoItems), None, Item(Str(alias), NoItems), Slot(k), Some(Str(purpose)))
  }

  lemma MonthlyStrings(k: Keys, table: string, a: string, column: string, alias: string, purpose: string)
    requires Apart(k)
    ensures var s := Monthly(k, table, a, column, alias, purpose);
            && Aliases(s) == {a, alias}
            && Leaves(s) == {table, column, k.month, alias, k.slot, purpose}
            && Numbering(s) == SetDefault(SetDefault(map[], a), alias)
  {
    var m1 := SetDefault(map[], a);
    BodyStrings(k, column, alias, purpose, m1);
    TopStrings(k, table, a, alias, MonthlyBody(k, column, alias, purpose), {column, k.month, alias, k.slot, purpose}, SetDefault(m1, alias));
    assert {table} + {column, k.month, alias, k.slot, purpose} == {table, column, k.month, alias, k.slot, purpose};
  }

  lemma TopStrings(k: Keys, table: string, a: string, alias: string, body: Fields, leaves: set<string>, m: Mapping)
    requires Apart(k) && Holds(body, {alias}, leaves, SetDefault(map[], a), m)
    ensures Holds(Field(k.table, Str(table), Field(k.tableAlias, Str(a), body)), {a, alias}, {table} + leaves, map[], m)
  {
    HoldsAlias(k.tableAlias, a, body, {alias}, leaves, map[], m);
    HoldsPlain(k.table, Str(table), Field(k.tableAlias, Str(a), body), {a} + {alias}, leaves, map[], m);
    assert {} + ({a} + {alias}) == {a, alias};
  }

  lemma BodyStrings(k: Keys, column: string, alias: string, purpose: string, m: Mapping)
    requires Apart(k)
    ensures Holds(MonthlyBody(k, column, alias, purpose), {alias}, {column, k.month, alias, k.slot, purpose}, m, SetDefault(m, alias))
  {
    var m' := SetDefault(m, alias);
    var select := Arr(Item(Bucket(k, column, alias), NoItems));
    ListStrings(Bucket(k, column, alias), m);
    BucketStrings(k, column, alias, m);
    GroupStrings(k, alias, purpose, m');
    HoldsPlain(k.select, select, MonthlyBody(k, column, alias, purpose).rest, {}, {alias, k.slot, purpose}, m, m');
    assert {alias} + {} == {alias} && {column, k.month} + {alias, k.slot, purpose} == {column, k.month, alias, k.slot, purpose};
  }

  lemma GroupStrings(k: Keys, alias: string, purpose: string, m: Mapping)
    requires Apart(k)
    ensures Holds(AfterSelect(k, None, Item(Str(alias), NoItems), Slot(k), Some(Str(purpose))), {}, {alias, k.slot, purpose}, m, m)
  {
    var group := Arr(Item(Str(alias), NoItems));
    var closing := Field(k.order, Arr(NoItems), Field(k.offset, Slot(k), AfterOffset(k, Some(Str(purpose)))));
    var f3 := Field(k.group, group, closing);
    ListStrings(Str(alias), m);
    ClosingStrings(k, purpose, m);
    HoldsPlain(k.group, group, closing, {}, {k.slot, purpose}, m, m);
    assert {alias} + {k.slot, purpose} == {alias, k.slot, purpose};
    HoldsNothing(k.joins, Arr(NoItems), f3, {alias, k.slot, purpose}, m);
    HoldsNothing(k.distinct, Bool(false), Field(k.joins, Arr(NoItems), f3), {alias, k.slot, purpose}, m);
  }

  lemma ClosingStrings(k: Keys, purpose: string, m: Mapping)
    requires Apart(k)
    ensures Holds(Field(k.order, Arr(NoItems), Field(k.offset, Slot(k), AfterOffset(k, Some(Str(purpose))))), {}, {k.slot, purpose}, m, m)
  {
    var last := Field(k.purpose, Str(purpose), NoFields);
    var ctes := Field(k.ctes, Arr(NoItems), last);
    var correlate := Field(k.correlate, Arr(NoItems), ctes);
    HoldsPlain(k.purpose, Str(purpose), NoFields, {}, {}, m, m);
    assert {purpose} + {} == {purpose};
    HoldsNothing(k.ctes, Arr(NoItems), last, {purpose}, m);
    HoldsNothing(k.correlate, Arr(NoItems), ctes, {purpose}, m);
    SlotStrings(k, m);
    HoldsPlain(k.offset, Slot(k), correlate, {}, {purpose}, m, m);
    assert {k.slot} + {purpose} == {k.slot, purpose};
    HoldsNothing(k.order, Arr(NoItems), Field(k.offset, Slot(k), correlate), {k.slot, purpose}, m);
  }

  lemma SlotStrings(k: Keys, m: Mapping)
    requires Apart(k)
    ensures Aliases(Slot(k)) == {} && Leaves(Slot(k)) == {k.slot} && Collect(Slot(k), m) == m
  {
    HoldsPlain(k.param, Str(k.slot), NoFields, {}, {}, m, m);
  }

  lemma HoldsNothing(key: string, value: Json, rest: Fields, leaves: set<string>, m: Mapping)
    requires !AliasKey(key) && (value == Arr(NoItems) || value.Bool?) && Holds(rest, {}, leaves, m, m)
    ensures Holds(Field(key, value, rest), {}, leaves, m, m)
  {
    assert Aliases(value) == {} && Leaves(value) == {} && Collect(value, m) == m;
  }

  // Renaming the alias that a column is qualified with, throughout the query,
  // changes the tree that is hashed.
  lemma DottedReferencesKeepAlias(table: string, a: string, b: string, column: string, alias: string, purpose: string)
    requires a != b && '.' !in a && '.' !in b && '.' !in alias
    requires a != alias && b !in {table, alias, purpose, KEYS.month, KEYS.slot}
    ensures var s := Monthly(KEYS, table, a, a + "." + column, alias, purpose);
            var rho := map[a := b, alias := alias];
            IsRenaming(s, rho) && Canonical(Replace(s, FullRenaming(s, rho))) != Canonical(s)
  {
    KeysAreApart();
    QualifiedRenaming(KEYS, table, a, b, a + "." + column, alias, purpose);
  }

  lemma QualifiedRenaming(k: Keys, table: string, a: string, b: string, x: string, alias: string, purpose: string)
    requires Apart(k) && a != b && '.' !in a && '.' !in b && '.' !in alias
    requires a != alias && b !in {table, alias, purpose, k.month, k.slot}
    requires |a| < |x| && x[..|a|] == a && x[|a|] == '.'
    ensures var s := Monthly(k, table, a, x, alias, purpose);
            var rho := map[a := b, alias := alias];
            IsRenaming(s, rho) && Canonical(Replace(s, FullRenaming(s, rho))) != Canonical(s)
  {
    var s := Monthly(k, table, a, x, alias, purpose);
    var rho := map[a := b, alias := alias];
    MonthlyStrings(k, table, a, x, alias, purpose);
    QualifierOf(a, x[|a|..]);
    assert a + x[|a|..] == x;
    assert x in Leaves(s) && Qualified(x, rho);
    FullRenamingIff(s, rho);
  }

  lemma {:induction false} QualifierOf(a: string, rest: string)
    requires '.' !in a && rest != "" && rest[0] == '.'
    ensures Qualifier(a + rest) == a
  {
    if a == "" {
      assert a + rest == rest;
    } else {
      assert (a + rest)[0] == a[0] && (a + rest)[1..] == a[1..] + rest;
      QualifierOf(a[1..], rest);
    }
  }

  // Declaring a purpose that reads as the second token is confused with declaring
  // one that is spelled like the alias the token stands for; both are accepted as
  // long as no purposes are configured.
  lemma TokenLeafConfused(table: string, a: string, column: string, alias: string)
    requires a != alias && Token(2) !in {a, alias}
    ensures var s := Monthly(KEYS, table, a, column, alias, Token(2));
            !NoTokenLeaf(s) && exists t :: NoTokenLeaf(t) && Canonical(t) == Canonical(s) && !AlphaEquivalent(s, t)
  {
    KeysAreApart();
    TokenConfusion(KEYS, table, a, column, alias, Token(2));
  }

  lemma TokenConfusion(k: Keys, table: string, a: string, column: string, alias: string, token: string)
    requires Apart(k) && a != alias && token !in {a, alias} && token == Token(2)
    ensures var s := Monthly(k, table, a, column, alias, token);
            !NoTokenLeaf(s) && exists t :: NoTokenLeaf(t) && Canonical(t) == Canonical(s) && !AlphaEquivalent(s, t)
  {
    var s := Monthly(k, table, a, column, alias, token);
    MonthlyStrings(k, table, a, column, alias, token);
    assert Numbering(s)[alias] == token;
    assert token in Leaves(s) && token in Numbering(s).Values;
    UnconfusedTwin(s);
    TwinIsNoRenaming(s);
  }
}
