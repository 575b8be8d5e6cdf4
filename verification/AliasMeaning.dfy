// Which strings of a skeleton count as caller-authored aliases, with the keys
// spelled out, and what renaming them does to the hashed tree.
module AliasMeaning {
  import opened Json
  import opened Text
  import opened AliasCanonical

  predicate NamesAlias(key: string, value: Json) {
    value.Str? && (key == "alias" || key == "from_alias" || key == "name")
  }

  /** The strings under an alias key, at any depth. */
  function Authored(node: Json): set<string> {
    match node
    case Obj(fields) => AuthoredFields(fields)
    case Arr(items) => AuthoredItems(items)
    case _ => {}
  }

  function AuthoredItems(items: Items): set<string> {
    match items
    case NoItems => {}
    case Item(head, tail) => Authored(head) + AuthoredItems(tail)
  }

  function AuthoredFields(fields: Fields): set<string> {
    match fields
    case NoFields => {}
    case Field(key, value, rest) =>
      if NamesAlias(key, value) then {value.s} + AuthoredFields(rest) else Authored(value) + AuthoredFields(rest)
  }

  /** All other strings. */
  function Bare(node: Json): set<string> {
    match node
    case Obj(fields) => BareFields(fields)
    case Arr(items) => BareItems(items)
    case Str(s) => {s}
    case _ => {}
  }

  function BareItems(items: Items): set<string> {
    match items
    case NoItems => {}
    case Item(head, tail) => Bare(head) + BareItems(tail)
  }

  function BareFields(fields: Fields): set<string> {
    match fields
    case NoFields => {}
    case Field(key, value, rest) => if NamesAlias(key, value) then BareFields(rest) else Bare(value) + BareFields(rest)
  }

  lemma {:induction false} AuthoredAre(node: Json)
    ensures Aliases(node) == Authored(node) && Leaves(node) == Bare(node)
    decreases node, 0
  {
    match node
    case Obj(fields) => AuthoredFieldsAre(fields);
    case Arr(items) => AuthoredItemsAre(items);
    case _ =>
  }

  lemma {:induction false} AuthoredItemsAre(items: Items)
    ensures AliasesOfItems(items) == AuthoredItems(items) && LeavesOfItems(items) == BareItems(items)
    decreases items, 1
  {
    if items.Item? {
      AuthoredAre(items.head);
      AuthoredItemsAre(items.tail);
    }
  }

  lemma {:induction false} AuthoredFieldsAre(fields: Fields)
    ensures AliasesOfFields(fields) == AuthoredFields(fields) && LeavesOfFields(fields) == BareFields(fields)
    decreases fields, 1
  {
    if fields.Field? {
      AuthoredFieldsAre(fields.rest);
      if !NamesAlias(fields.key, fields.value) {
        AuthoredAre(fields.value);
      }
    }
  }

  /** Every alias gets a name of its own that no bare string uses already. */
  ghost predicate Renames(s: Json, rho: map<string, string>) {
    && rho.Keys == Authored(s)
    && (forall a, b :: a in rho && b in rho && rho[a] == rho[b] ==> a == b)
    && (forall x :: x in Bare(s) && x !in rho ==> x !in rho.Values)
  }

  // Renaming query, table and CTE aliases alike keeps the hashed tree.
  lemma RenamingKeepsTree(s: Json, rho: map<string, string>)
    requires Renames(s, rho)
    ensures Canonical(Replace(s, rho)) == Canonical(s)
  {
    AuthoredAre(s);
    RenamingKeepsCanonical(s, rho);
  }

  // Where no bare string reads as a token, nothing else keeps it.
  lemma SameTreeIff(s: Json, t: Json)
    requires NoTokenLeaf(s) && NoTokenLeaf(t)
    ensures Canonical(s) == Canonical(t) <==> exists rho :: Renames(s, rho) && t == Replace(s, rho)
  {
    AuthoredAre(s);
    CanonicalIffAlpha(s, t);
    forall rho ensures Renames(s, rho) <==> IsRenaming(s, rho) {
    }
  }

  // ----------------------------------------------------------- the tokens

  /** The strings under an alias key in the order of the skeleton. */
  function InOrder(node: Json): seq<string> {
    match node
    case Obj(fields) => FieldsInOrder(fields)
    case Arr(items) => ItemsInOrder(items)
    case _ => []
  }

  function ItemsInOrder(items: Items): seq<string> {
    match items
    case NoItems => []
    case Item(head, tail) => InOrder(head) + ItemsInOrder(tail)
  }

  function FieldsInOrder(fields: Fields): seq<string> {
    match fields
    case NoFields => []
    case Field(key, value, rest) =>
      if NamesAlias(key, value) then [value.s] + FieldsInOrder(rest) else InOrder(value) + FieldsInOrder(rest)
  }

  function Fold(names: seq<string>, m: Mapping): Mapping {
    if names == [] then m else SetDefault(Fold(names[..|names| - 1], m), names[|names| - 1])
  }

  lemma {:induction false} FoldConcat(a: seq<string>, b: seq<string>, m: Mapping)
    ensures Fold(a + b, m) == Fold(b, Fold(a, m))
  {
    if b == [] {
      assert a + b == a;
    } else {
      assert (a + b)[..|a + b| - 1] == a + b[..|b| - 1];
      FoldConcat(a, b[..|b| - 1], m);
    }
  }

  lemma FoldOne(x: string, m: Mapping)
    ensures Fold([x], m) == SetDefault(m, x)
  {
    assert [x][..0] == [];
  }

  lemma {:induction false} CollectFolds(node: Json, m: Mapping)
    ensures Collect(node, m) == Fold(InOrder(node), m)
    decreases node, 0
  {
    match node
    case Obj(fields) => CollectFieldsFolds(fields, m);
    case Arr(items) => CollectItemsFolds(items, m);
    case _ =>
  }

  lemma {:induction false} CollectItemsFolds(items: Items, m: Mapping)
    ensures CollectItems(items, m) == Fold(ItemsInOrder(items), m)
    decreases items, 1
  {
    if items.Item? {
      CollectFolds(items.head, m);
      CollectItemsFolds(items.tail, Collect(items.head, m));
      FoldConcat(InOrder(items.head), ItemsInOrder(items.tail), m);
    }
  }

  lemma {:induction false} CollectFieldsFolds(fields: Fields, m: Mapping)
    ensures CollectFields(fields, m) == Fold(FieldsInOrder(fields), m)
    decreases fields, 1
  {
    match fields
    case NoFields =>
    case Field(key, value, rest) =>
      if NamesAlias(key, value) {
        FoldOne(value.s, m);
        CollectFieldsFolds(rest, SetDefault(m, value.s));
        FoldConcat([value.s], FieldsInOrder(rest), m);
      } else {
        CollectFolds(value, m);
        CollectFieldsFolds(rest, Collect(value, m));
        FoldConcat(InOrder(value), FieldsInOrder(rest), m);
      }
  }

  function Distinct(names: seq<string>): set<string> {
    set x | x in names
  }

  lemma {:induction false} FoldKeys(names: seq<string>)
    ensures Fold(names, map[]).Keys == Distinct(names)
  {
    if names != [] {
      var n := |names| - 1;
      FoldKeys(names[..n]);
      assert names == names[..n] + [names[n]];
    }
  }

  lemma {:induction false} FoldNumbers(names: seq<string>, i: nat)
    requires i < |names| && names[i] !in names[..i]
    ensures names[i] in Fold(names, map[])
    ensures Fold(names, map[])[names[i]] == "#" + Decimal(|Distinct(names[..i])| + 1)
  {
    var n := |names| - 1;
    FoldKeys(names[..n]);
    if i < n {
      assert names[..n][..i] == names[..i];
      FoldNumbers(names[..n], i);
    } else {
      var m := Fold(names[..n], map[]);
      assert names[n] !in m && |m| == |m.Keys|;
    }
  }

  // In the hashed tree the aliases are #1, #2 and so on in the order in which
  // they first appear.
  lemma TokensInOrder(s: Json, i: nat)
    requires i < |InOrder(s)| && InOrder(s)[i] !in InOrder(s)[..i]
    ensures var m, names := Numbering(s), InOrder(s);
            && Canonical(s) == Replace(s, m)
            && names[i] in m && m[names[i]] == "#" + Decimal(|Distinct(names[..i])| + 1)
  {
    CanonicalIsReplacement(s);
    CollectFolds(s, map[]);
    FoldNumbers(InOrder(s), i);
  }
}
