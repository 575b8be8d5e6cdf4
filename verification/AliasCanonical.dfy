// `shape_hash`: caller-authored aliases are replaced by positional tokens before
// a skeleton is hashed. The tokens decide equality up to a renaming of aliases.
module AliasCanonical {
  import opened Json
  import opened Text

  type Mapping = map<string, string>

  predicate AliasKey(key: string) {
    key in {"alias", "from_alias", "name"}
  }

  /** An alias definition: a caller-authored name under an alias key. */
  predicate Defines(key: string, value: Json) {
    AliasKey(key) && value.Str?
  }

  function SetDefault(m: Mapping, alias: string): (r: Mapping)
    ensures r.Keys == m.Keys + {alias}
  {
    if alias in m then m else m[alias := Token(|m| + 1)]
  }

  // ----------------------------------------------------- the two passes

  /** `_collect_aliases`. */
  function Collect(node: Json, m: Mapping): Mapping {
    match node
    case Obj(fields) => CollectFields(fields, m)
    case Arr(items) => CollectItems(items, m)
    case _ => m
  }

  function CollectItems(items: Items, m: Mapping): Mapping {
    match items
    case NoItems => m
    case Item(head, tail) => CollectItems(tail, Collect(head, m))
  }

  function CollectFields(fields: Fields, m: Mapping): Mapping {
    match fields
    case NoFields => m
    case Field(key, value, rest) =>
      CollectFields(rest, if Defines(key, value) then SetDefault(m, value.s) else Collect(value, m))
  }

  /** `_canonicalize_aliases`, which may itself extend the mapping. */
  function Rewrite(node: Json, m: Mapping): (Json, Mapping) {
    match node
    case Obj(fields) => var r := RewriteFields(fields, m); (Obj(r.0), r.1)
    case Arr(items) => var r := RewriteItems(items, m); (Arr(r.0), r.1)
    case Str(s) => (Str(if s in m then m[s] else s), m)
    case _ => (node, m)
  }

  function RewriteItems(items: Items, m: Mapping): (Items, Mapping) {
    match items
    case NoItems => (NoItems, m)
    case Item(head, tail) =>
      var h := Rewrite(head, m);
      var t := RewriteItems(tail, h.1);
      (Item(h.0, t.0), t.1)
  }

  function RewriteFields(fields: Fields, m: Mapping): (Fields, Mapping) {
    match fields
    case NoFields => (NoFields, m)
    case Field(key, value, rest) =>
      var h := if Defines(key, value)
               then var m' := SetDefault(m, value.s); (Str(m'[value.s]), m')
               else Rewrite(value, m);
      var t := RewriteFields(rest, h.1);
      (Field(key, h.0, t.0), t.1)
  }

  /** The tree that is dumped with sorted keys and hashed. */
  function Canonical(skeleton: Json): Json {
    Rewrite(skeleton, Collect(skeleton, map[])).0
  }

  /** `digest` is the key-sorted JSON dump followed by sha256. */
  function ShapeHash<H>(skeleton: Json, digest: Json -> H): H {
    digest(Canonical(skeleton))
  }

  // ------------------------------------------------- aliases and leaves

  function Aliases(node: Json): set<string> {
    match node
    case Obj(fields) => AliasesOfFields(fields)
    case Arr(items) => AliasesOfItems(items)
    case _ => {}
  }

  function AliasesOfItems(items: Items): set<string> {
    match items
    case NoItems => {}
    case Item(head, tail) => Aliases(head) + AliasesOfItems(tail)
  }

  function AliasesOfFields(fields: Fields): set<string> {
    match fields
    case NoFields => {}
    case Field(key, value, rest) =>
      (if Defines(key, value) then {value.s} else Aliases(value)) + AliasesOfFields(rest)
  }

  /** String leaves that are not alias definitions. */
  function Leaves(node: Json): set<string> {
    match node
    case Obj(fields) => LeavesOfFields(fields)
    case Arr(items) => LeavesOfItems(items)
    case Str(s) => {s}
    case _ => {}
  }

  function LeavesOfItems(items: Items): set<string> {
    match items
    case NoItems => {}
    case Item(head, tail) => Leaves(head) + LeavesOfItems(tail)
  }

  function LeavesOfFields(fields: Fields): set<string> {
    match fields
    case NoFields => {}
    case Field(key, value, rest) =>
      (if Defines(key, value) then {} else Leaves(value)) + LeavesOfFields(rest)
  }

  /** Replace every alias definition and every bare reference by its image. */
  function Replace(node: Json, m: Mapping): Json {
    match node
    case Obj(fields) => Obj(ReplaceFields(fields, m))
    case Arr(items) => Arr(ReplaceItems(items, m))
    case Str(s) => Str(if s in m then m[s] else s)
    case _ => node
  }

  function ReplaceItems(items: Items, m: Mapping): Items {
    match items
    case NoItems => NoItems
    case Item(head, tail) => Item(Replace(head, m), ReplaceItems(tail, m))
  }

  function ReplaceFields(fields: Fields, m: Mapping): Fields {
    match fields
    case NoFields => NoFields
    case Field(key, value, rest) => Field(key, Replace(value, m), ReplaceFields(rest, m))
  }

  // --------------------------------------------------- collection covers

  lemma {:induction false} CollectKeys(node: Json, m: Mapping)
    ensures Collect(node, m).Keys == m.Keys + Aliases(node)
    decreases node, 0
  {
    match node
    case Obj(fields) => CollectFieldsKeys(fields, m);
    case Arr(items) => CollectItemsKeys(items, m);
    case _ =>
  }

  lemma {:induction false} CollectItemsKeys(items: Items, m: Mapping)
    ensures CollectItems(items, m).Keys == m.Keys + AliasesOfItems(items)
    decreases items, 1
  {
    if items.Item? {
      CollectKeys(items.head, m);
      CollectItemsKeys(items.tail, Collect(items.head, m));
    }
  }

  lemma {:induction false} CollectFieldsKeys(fields: Fields, m: Mapping)
    ensures CollectFields(fields, m).Keys == m.Keys + AliasesOfFields(fields)
    decreases fields, 1
  {
    match fields
    case NoFields =>
    case Field(key, value, rest) =>
      var next := if Defines(key, value) then SetDefault(m, value.s) else Collect(value, m);
      CollectFieldKeys(key, value, m);
      CollectFieldsKeys(rest, next);
      UnionAssociates(m.Keys, if Defines(key, value) then {value.s} else Aliases(value), AliasesOfFields(rest));
  }

  lemma UnionAssociates<T>(a: set<T>, b: set<T>, c: set<T>)
    ensures (a + b) + c == a + (b + c)
  {
  }

  lemma {:induction false} CollectFieldKeys(key: string, value: Json, m: Mapping)
    ensures var next := if Defines(key, value) then SetDefault(m, value.s) else Collect(value, m);
            next.Keys == m.Keys + if Defines(key, value) then {value.s} else Aliases(value)
    decreases value, 1
  {
    if !Defines(key, value) {
      CollectKeys(value, m);
    }
  }

  // With every alias collected, the rewrite is a plain replacement and never
  // mints a token of its own.
  lemma {:induction false} RewriteCovered(node: Json, m: Mapping)
    requires Aliases(node) <= m.Keys
    ensures Rewrite(node, m) == (Replace(node, m), m)
  {
    match node
    case Obj(fields) => RewriteFieldsCovered(fields, m);
    case Arr(items) => RewriteItemsCovered(items, m);
    case _ =>
  }

  lemma {:induction false} RewriteItemsCovered(items: Items, m: Mapping)
    requires AliasesOfItems(items) <= m.Keys
    ensures RewriteItems(items, m) == (ReplaceItems(items, m), m)
  {
    if items.Item? {
      RewriteCovered(items.head, m);
      RewriteItemsCovered(items.tail, m);
    }
  }

  lemma {:induction false} RewriteFieldsCovered(fields: Fields, m: Mapping)
    requires AliasesOfFields(fields) <= m.Keys
    ensures RewriteFields(fields, m) == (ReplaceFields(fields, m), m)
  {
    match fields
    case NoFields =>
    case Field(key, value, rest) =>
      if !Defines(key, value) {
        RewriteCovered(value, m);
      }
      RewriteFieldsCovered(rest, m);
  }

  function Numbering(skeleton: Json): Mapping {
    Collect(skeleton, map[])
  }

  // Collection covers exactly the aliases the rewrite meets.
  lemma CanonicalIsReplacement(skeleton: Json)
    ensures Numbering(skeleton).Keys == Aliases(skeleton)
    ensures Rewrite(skeleton, Numbering(skeleton)) == (Replace(skeleton, Numbering(skeleton)), Numbering(skeleton))
  {
    CollectKeys(skeleton, map[]);
    RewriteCovered(skeleton, Numbering(skeleton));
  }

  // ------------------------------------------------- tokens are distinct

  ghost predicate Injective(m: Mapping) {
    forall a, b :: a in m && b in m && m[a] == m[b] ==> a == b
  }

  /** Each alias has its own token among #1 .. #n. */
  ghost predicate Numbered(m: Mapping) {
    && Injective(m)
    && forall a :: a in m ==> exists k: nat :: k <= |m| && m[a] == Token(k)
  }

  lemma SetDefaultNumbered(m: Mapping, alias: string)
    requires Numbered(m)
    ensures Numbered(SetDefault(m, alias))
  {
    if alias !in m {
      var n := |m| + 1;
      var m' := m[alias := Token(n)];
      forall a | a in m
        ensures m[a] != Token(n)
      {
        var k: nat :| k <= |m| && m[a] == Token(k);
        if m[a] == Token(n) {
          TokenInjective(k, n);
        }
      }
      assert m'.Keys == m.Keys + {alias};
      assert |m'| == n;
    }
  }

  lemma {:induction false} CollectNumbered(node: Json, m: Mapping)
    requires Numbered(m)
    ensures Numbered(Collect(node, m))
  {
    match node
    case Obj(fields) => CollectFieldsNumbered(fields, m);
    case Arr(items) => CollectItemsNumbered(items, m);
    case _ =>
  }

  lemma {:induction false} CollectItemsNumbered(items: Items, m: Mapping)
    requires Numbered(m)
    ensures Numbered(CollectItems(items, m))
  {
    if items.Item? {
      CollectNumbered(items.head, m);
      CollectItemsNumbered(items.tail, Collect(items.head, m));
    }
  }

  lemma {:induction false} CollectFieldsNumbered(fields: Fields, m: Mapping)
    requires Numbered(m)
    ensures Numbered(CollectFields(fields, m))
  {
    match fields
    case NoFields =>
    case Field(key, value, rest) =>
      if Defines(key, value) {
        SetDefaultNumbered(m, value.s);
        CollectFieldsNumbered(rest, SetDefault(m, value.s));
      } else {
        CollectNumbered(value, m);
        CollectFieldsNumbered(rest, Collect(value, m));
      }
  }

  // ------------------------------------- renaming preserves the canonical tree

  /** An injective renaming of the aliases that captures no other bare string. */
  ghost predicate IsRenaming(s: Json, rho: Mapping) {
    && rho.Keys == Aliases(s)
    && Injective(rho)
    && forall x :: x in Leaves(s) && x !in rho ==> x !in rho.Values
  }

  ghost predicate AlphaEquivalent(s: Json, t: Json) {
    exists rho :: IsRenaming(s, rho) && t == Replace(s, rho)
  }

  /** m' numbers the renamed aliases as m numbers the originals. */
  ghost predicate Transported(rho: Mapping, m: Mapping, m': Mapping) {
    && m.Keys <= rho.Keys
    && |m| == |m'|
    && (forall a :: a in m ==> rho[a] in m' && m'[rho[a]] == m[a])
    && (forall b :: b in m' ==> InImage(rho, m, b))
  }

  ghost predicate InImage(rho: Mapping, m: Mapping, b: string)
    requires m.Keys <= rho.Keys
  {
    exists a :: a in m && rho[a] == b
  }

  lemma ImageReflects(rho: Mapping, m: Mapping, m': Mapping, alias: string)
    requires Injective(rho) && Transported(rho, m, m') && alias in rho && rho[alias] in m'
    ensures alias in m
  {
    assert InImage(rho, m, rho[alias]);
  }

  lemma SetDefaultTransported(rho: Mapping, m: Mapping, m': Mapping, alias: string)
    requires Injective(rho) && Transported(rho, m, m') && alias in rho
    ensures Transported(rho, SetDefault(m, alias), SetDefault(m', rho[alias]))
  {
    var b := rho[alias];
    if b in m' {
      ImageReflects(rho, m, m', alias);
    } else {
      var n, n' := SetDefault(m, alias), SetDefault(m', b);
      assert |n.Keys| == |m.Keys| + 1 && |n'.Keys| == |m'.Keys| + 1;
      forall c | c in n'
        ensures InImage(rho, n, c)
      {
        if c == b {
          assert alias in n;
        } else {
          assert InImage(rho, m, c);
          var a :| a in m && rho[a] == c;
          assert a in n;
        }
      }
    }
  }

  lemma {:induction false} CollectTransported(node: Json, rho: Mapping, m: Mapping, m': Mapping)
    requires Injective(rho) && Transported(rho, m, m') && Aliases(node) <= rho.Keys
    ensures Transported(rho, Collect(node, m), Collect(Replace(node, rho), m'))
  {
    match node
    case Obj(fields) => CollectFieldsTransported(fields, rho, m, m');
    case Arr(items) => CollectItemsTransported(items, rho, m, m');
    case _ =>
  }

  lemma {:induction false} CollectItemsTransported(items: Items, rho: Mapping, m: Mapping, m': Mapping)
    requires Injective(rho) && Transported(rho, m, m') && AliasesOfItems(items) <= rho.Keys
    ensures Transported(rho, CollectItems(items, m), CollectItems(ReplaceItems(items, rho), m'))
  {
    if items.Item? {
      CollectTransported(items.head, rho, m, m');
      CollectItemsTransported(items.tail, rho, Collect(items.head, m), Collect(Replace(items.head, rho), m'));
    }
  }

  lemma {:induction false} CollectFieldsTransported(fields: Fields, rho: Mapping, m: Mapping, m': Mapping)
    requires Injective(rho) && Transported(rho, m, m') && AliasesOfFields(fields) <= rho.Keys
    ensures Transported(rho, CollectFields(fields, m), CollectFields(ReplaceFields(fields, rho), m'))
  {
    match fields
    case NoFields =>
    case Field(key, value, rest) =>
      var renamed := Replace(value, rho);
      var n := if Defines(key, value) then SetDefault(m, value.s) else Collect(value, m);
      var n' := if Defines(key, renamed) then SetDefault(m', renamed.s) else Collect(renamed, m');
      if Defines(key, value) {
        assert renamed.s == rho[value.s];
        SetDefaultTransported(rho, m, m', value.s);
      } else {
        CollectTransported(value, rho, m, m');
      }
      assert Transported(rho, n, n');
      CollectFieldsTransported(rest, rho, n, n');
  }

  /** The two numberings send every string of the tree to the same place. */
  ghost predicate Agree(strings: set<string>, rho: Mapping, m: Mapping, m': Mapping) {
    forall x :: x in strings ==>
      var y := if x in rho then rho[x] else x;
      (if y in m' then m'[y] else y) == (if x in m then m[x] else x)
  }

  lemma {:induction false} ReplaceTwice(node: Json, rho: Mapping, m: Mapping, m': Mapping)
    requires Agree(Aliases(node) + Leaves(node), rho, m, m')
    ensures Replace(Replace(node, rho), m') == Replace(node, m)
  {
    match node
    case Obj(fields) => ReplaceFieldsTwice(fields, rho, m, m');
    case Arr(items) => ReplaceItemsTwice(items, rho, m, m');
    case _ =>
  }

  lemma {:induction false} ReplaceItemsTwice(items: Items, rho: Mapping, m: Mapping, m': Mapping)
    requires Agree(AliasesOfItems(items) + LeavesOfItems(items), rho, m, m')
    ensures ReplaceItems(ReplaceItems(items, rho), m') == ReplaceItems(items, m)
  {
    if items.Item? {
      ReplaceTwice(items.head, rho, m, m');
      ReplaceItemsTwice(items.tail, rho, m, m');
    }
  }

  lemma {:induction false} ReplaceFieldsTwice(fields: Fields, rho: Mapping, m: Mapping, m': Mapping)
    requires Agree(AliasesOfFields(fields) + LeavesOfFields(fields), rho, m, m')
    ensures ReplaceFields(ReplaceFields(fields, rho), m') == ReplaceFields(fields, m)
  {
    match fields
    case NoFields =>
    case Field(key, value, rest) =>
      if Defines(key, value) {
        assert value.s in AliasesOfFields(fields) + LeavesOfFields(fields);
      } else {
        ReplaceTwice(value, rho, m, m');
      }
      ReplaceFieldsTwice(rest, rho, m, m');
  }

  // Renaming aliases injectively, without capture, leaves the hash unchanged.
  lemma RenamingKeepsCanonical(s: Json, rho: Mapping)
    requires IsRenaming(s, rho)
    ensures Canonical(Replace(s, rho)) == Canonical(s)
  {
    var t := Replace(s, rho);
    var m, m' := Numbering(s), Numbering(t);
    CanonicalIsReplacement(s);
    CanonicalIsReplacement(t);
    CollectTransported(s, rho, map[], map[]);
    assert Agree(Aliases(s) + Leaves(s), rho, m, m');
    ReplaceTwice(s, rho, m, m');
  }

  // --------------------------------- equal canonical trees give a renaming

  /** No bare string that is not an alias reads as a token this skeleton hands out. */
  ghost predicate NoTokenLeaf(s: Json) {
    forall x :: x in Leaves(s) && x !in Aliases(s) ==> x !in Numbering(s).Values
  }

  lemma {:induction false} ReplaceAliases(node: Json, m: Mapping)
    requires Aliases(node) <= m.Keys
    ensures Aliases(Replace(node, m)) == set a | a in Aliases(node) :: m[a]
  {
    match node
    case Obj(fields) => ReplaceFieldsAliases(fields, m);
    case Arr(items) => ReplaceItemsAliases(items, m);
    case _ =>
  }

  lemma {:induction false} ReplaceItemsAliases(items: Items, m: Mapping)
    requires AliasesOfItems(items) <= m.Keys
    ensures AliasesOfItems(ReplaceItems(items, m)) == set a | a in AliasesOfItems(items) :: m[a]
  {
    if items.Item? {
      ReplaceAliases(items.head, m);
      ReplaceItemsAliases(items.tail, m);
    }
  }

  lemma {:induction false} ReplaceFieldsAliases(fields: Fields, m: Mapping)
    requires AliasesOfFields(fields) <= m.Keys
    ensures AliasesOfFields(ReplaceFields(fields, m)) == set a | a in AliasesOfFields(fields) :: m[a]
  {
    match fields
    case NoFields =>
    case Field(key, value, rest) =>
      if !Defines(key, value) {
        ReplaceAliases(value, m);
      }
      ReplaceFieldsAliases(rest, m);
  }

  /** rho sends each alias of the one numbering to the alias of the other that
      carries the same token. */
  ghost predicate Matches(rho: Mapping, ms: Mapping, mt: Mapping) {
    && rho.Keys == ms.Keys
    && Injective(mt)
    && (forall a :: a in ms ==> rho[a] in mt && mt[rho[a]] == ms[a])
    && ms.Values == mt.Values
  }

  ghost predicate NoTokens(strings: set<string>, m: Mapping) {
    forall x :: x in strings && x !in m ==> x !in m.Values
  }

  lemma {:induction false} SameReplacement(s: Json, t: Json, rho: Mapping, ms: Mapping, mt: Mapping)
    requires Matches(rho, ms, mt)
    requires Aliases(s) <= ms.Keys && Aliases(t) <= mt.Keys
    requires NoTokens(Leaves(s), ms) && NoTokens(Leaves(t), mt)
    requires Replace(s, ms) == Replace(t, mt)
    ensures t == Replace(s, rho)
    ensures forall x :: x in Leaves(s) && x !in ms ==> x !in mt
    decreases s
  {
    match s
    case Obj(fields) => SameFieldsReplacement(fields, t.fields, rho, ms, mt);
    case Arr(items) => SameItemsReplacement(items, t.items, rho, ms, mt);
    case _ =>
  }

  lemma {:induction false} SameItemsReplacement(s: Items, t: Items, rho: Mapping, ms: Mapping, mt: Mapping)
    requires Matches(rho, ms, mt)
    requires AliasesOfItems(s) <= ms.Keys && AliasesOfItems(t) <= mt.Keys
    requires NoTokens(LeavesOfItems(s), ms) && NoTokens(LeavesOfItems(t), mt)
    requires ReplaceItems(s, ms) == ReplaceItems(t, mt)
    ensures t == ReplaceItems(s, rho)
    ensures forall x :: x in LeavesOfItems(s) && x !in ms ==> x !in mt
    decreases s
  {
    if s.Item? {
      SameReplacement(s.head, t.head, rho, ms, mt);
      SameItemsReplacement(s.tail, t.tail, rho, ms, mt);
    }
  }

  lemma {:induction false} SameFieldsReplacement(s: Fields, t: Fields, rho: Mapping, ms: Mapping, mt: Mapping)
    requires Matches(rho, ms, mt)
    requires AliasesOfFields(s) <= ms.Keys && AliasesOfFields(t) <= mt.Keys
    requires NoTokens(LeavesOfFields(s), ms) && NoTokens(LeavesOfFields(t), mt)
    requires ReplaceFields(s, ms) == ReplaceFields(t, mt)
    ensures t == ReplaceFields(s, rho)
    ensures forall x :: x in LeavesOfFields(s) && x !in ms ==> x !in mt
    decreases s
  {
    if s.Field? {
      assert Replace(s.value, ms) == Replace(t.value, mt) && s.key == t.key;
      assert Defines(s.key, s.value) <==> Defines(t.key, t.value);
      if !Defines(s.key, s.value) {
        SameReplacement(s.value, t.value, rho, ms, mt);
      } else {
        assert s.value.s in ms && t.value.s in mt;
      }
      SameFieldsReplacement(s.rest, t.rest, rho, ms, mt);
    }
  }

  // The alias of mt that carries the same token as alias a of ms.
  ghost function Counterparts(ms: Mapping, mt: Mapping): (rho: Mapping)
    requires forall a :: a in ms ==> ms[a] in mt.Values
    ensures rho.Keys == ms.Keys
    ensures forall a :: a in ms ==> rho[a] in mt && mt[rho[a]] == ms[a]
  {
    map a | a in ms :: var b :| b in mt && mt[b] == ms[a]; b
  }

  // The aliases of a canonical tree are the tokens handed out.
  lemma CanonicalAliases(s: Json)
    ensures Aliases(Canonical(s)) == Numbering(s).Values
  {
    var m := Numbering(s);
    CanonicalIsReplacement(s);
    ReplaceAliases(s, m);
    assert (set a | a in Aliases(s) :: m[a]) == m.Values;
  }

  // Equal canonical trees use the same tokens.
  lemma SameTokens(s: Json, t: Json)
    requires Canonical(s) == Canonical(t)
    ensures Numbering(s).Values == Numbering(t).Values
  {
    CanonicalAliases(s);
    CanonicalAliases(t);
  }

  lemma SameCanonicalGivesRenaming(s: Json, t: Json) returns (rho: Mapping)
    requires NoTokenLeaf(s) && NoTokenLeaf(t)
    requires Canonical(s) == Canonical(t)
    ensures IsRenaming(s, rho) && t == Replace(s, rho)
  {
    var ms, mt := Numbering(s), Numbering(t);
    CanonicalIsReplacement(s);
    CanonicalIsReplacement(t);
    CollectNumbered(s, map[]);
    CollectNumbered(t, map[]);
    SameTokens(s, t);
    rho := Counterparts(ms, mt);
    SameReplacement(s, t, rho, ms, mt);
    MatchesIsRenaming(s, rho, ms, mt);
  }

  lemma MatchesIsRenaming(s: Json, rho: Mapping, ms: Mapping, mt: Mapping)
    requires Matches(rho, ms, mt) && Injective(ms) && ms.Keys == Aliases(s)
    requires forall x :: x in Leaves(s) && x !in ms ==> x !in mt
    ensures IsRenaming(s, rho)
  {
    forall a, b | a in rho && b in rho && rho[a] == rho[b]
      ensures a == b
    {
      assert ms[a] == mt[rho[a]] == ms[b];
    }
    forall x | x in rho.Values
      ensures x in mt
    {
      var a :| a in rho && rho[a] == x;
    }
  }

  // The canonical tree decides alpha-equivalence: two skeletons in which no bare
  // string reads as one of their own tokens hash from one tree exactly when one
  // is an alias renaming of the other.
  lemma CanonicalIffAlpha(s: Json, t: Json)
    requires NoTokenLeaf(s) && NoTokenLeaf(t)
    ensures Canonical(s) == Canonical(t) <==> AlphaEquivalent(s, t)
  {
    if Canonical(s) == Canonical(t) {
      var rho := SameCanonicalGivesRenaming(s, t);
    }
    if AlphaEquivalent(s, t) {
      var rho :| IsRenaming(s, rho) && t == Replace(s, rho);
      RenamingKeepsCanonical(s, rho);
    }
  }

  // ----------------------------------------------------- imperative form

  /** The mapping both passes mutate. */
  class AliasTable {
    var mapping: Mapping

    constructor ()
      ensures mapping == map[]
    {
      mapping := map[];
    }

    method Define(alias: string) returns (token: string)
      modifies this
      ensures mapping == SetDefault(old(mapping), alias) && token == mapping[alias]
    {
      if alias !in mapping {
        mapping := mapping[alias := "#" + Decimal(|mapping| + 1)];
      }
      token := mapping[alias];
    }
  }

  method CollectAliases(node: Json, table: AliasTable)
    modifies table
    ensures table.mapping == Collect(node, old(table.mapping))
    decreases node
  {
    match node {
      case Obj(fields) =>
        var rest := fields;
        while rest.Field?
          invariant CollectFields(rest, table.mapping) == CollectFields(fields, old(table.mapping))
          invariant rest == fields || rest < fields
          decreases rest
        {
          if Defines(rest.key, rest.value) {
            var _ := table.Define(rest.value.s);
          } else {
            CollectAliases(rest.value, table);
          }
          rest := rest.rest;
        }
      case Arr(items) =>
        var rest := items;
        while rest.Item?
          invariant CollectItems(rest, table.mapping) == CollectItems(items, old(table.mapping))
          invariant rest == items || rest < items
          decreases rest
        {
          CollectAliases(rest.head, table);
          rest := rest.tail;
        }
      case _ =>
    }
  }

  method CanonicalizeAliases(node: Json, table: AliasTable) returns (out: Json)
    modifies table
    ensures (out, table.mapping) == Rewrite(node, old(table.mapping))
    decreases node
  {
    match node {
      case Obj(fields) =>
        var done := CanonicalizeFields(fields, table);
        out := Obj(done);
      case Arr(items) =>
        var done := CanonicalizeItems(items, table);
        out := Arr(done);
      case Str(s) =>
        out := if s in table.mapping then Str(table.mapping[s]) else node;
      case _ =>
        out := node;
    }
  }

  method CanonicalizeFields(fields: Fields, table: AliasTable) returns (out: Fields)
    modifies table
    ensures (out, table.mapping) == RewriteFields(fields, old(table.mapping))
    decreases fields
  {
    match fields {
      case NoFields =>
        out := NoFields;
      case Field(key, value, rest) =>
        var v: Json;
        if Defines(key, value) {
          var token := table.Define(value.s);
          v := Str(token);
        } else {
          v := CanonicalizeAliases(value, table);
        }
        var t := CanonicalizeFields(rest, table);
        out := Field(key, v, t);
    }
  }

  method CanonicalizeItems(items: Items, table: AliasTable) returns (out: Items)
    modifies table
    ensures (out, table.mapping) == RewriteItems(items, old(table.mapping))
    decreases items
  {
    match items {
      case NoItems =>
        out := NoItems;
      case Item(head, tail) =>
        var h := CanonicalizeAliases(head, table);
        var t := CanonicalizeItems(tail, table);
        out := Item(h, t);
    }
  }

  method ComputeShapeHash<H>(skeleton: Json, digest: Json -> H) returns (hash: H)
    ensures hash == ShapeHash(skeleton, digest) == digest(Replace(skeleton, Numbering(skeleton)))
  {
    var table := new AliasTable();
    CollectAliases(skeleton, table);
    CanonicalIsReplacement(skeleton);
    var normalized := CanonicalizeAliases(skeleton, table);
    hash := digest(normalized);
  }
}
