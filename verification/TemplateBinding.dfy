// From an observed query to a template draft and back: substituting the
// original values into the skeleton's placeholders.
module TemplateBinding {
  import opened Json
  import opened Skeleton
  import opened ParameterNames

  // ------------------------------------------- what a walk keeps and moves

  /** The query without free text and without null literals. */
  function Strip(node: Json): Json {
    match node
    case Obj(fields) => Obj(StripFields(fields))
    case Arr(items) => Arr(StripItems(items))
    case _ => node
  }

  function StripItems(items: Items): Items {
    match items
    case NoItems => NoItems
    case Item(head, tail) => Item(Strip(head), StripItems(tail))
  }

  function StripFields(fields: Fields): Fields {
    match fields
    case NoFields => NoFields
    case Field(key, value, rest) =>
      if Omitted(key, value) then StripFields(rest)
      else Field(key, if LiteralKey(key) then value else Strip(value), StripFields(rest))
  }

  /** The caller's values, in walk order. */
  function Values(node: Json): seq<Json> {
    match node
    case Obj(fields) => ValuesOfFields(fields)
    case Arr(items) => ValuesOfItems(items)
    case _ => []
  }

  function ValuesOfItems(items: Items): seq<Json> {
    match items
    case NoItems => []
    case Item(head, tail) => Values(head) + ValuesOfItems(tail)
  }

  function ValuesOfFields(fields: Fields): seq<Json> {
    match fields
    case NoFields => []
    case Field(key, value, rest) =>
      if Omitted(key, value) then ValuesOfFields(rest)
      else (if LiteralKey(key) then [value] else Values(value)) + ValuesOfFields(rest)
  }

  /** A dict `_substitute` takes for a placeholder. */
  predicate Bindable(v: Json) {
    IsPlaceholder(v) && v.fields.value.Str?
  }

  /** The placeholder names under literal keys, in walk order. */
  function Slots(node: Json): seq<string> {
    match node
    case Obj(fields) => SlotsOfFields(fields)
    case Arr(items) => SlotsOfItems(items)
    case _ => []
  }

  function SlotsOfItems(items: Items): seq<string> {
    match items
    case NoItems => []
    case Item(head, tail) => Slots(head) + SlotsOfItems(tail)
  }

  function SlotsOfFields(fields: Fields): seq<string> {
    match fields
    case NoFields => []
    case Field(key, value, rest) =>
      (if !LiteralKey(key) then Slots(value)
       else if Bindable(value) then [value.fields.value.s]
       else []) + SlotsOfFields(rest)
  }

  function Names(ps: seq<Param>): (ns: seq<string>)
    ensures |ns| == |ps| && forall i :: 0 <= i < |ps| ==> ns[i] == ps[i].name
  {
    seq(|ps|, i requires 0 <= i < |ps| => ps[i].name)
  }

  ghost predicate Typed(ps: seq<Param>, vs: seq<Json>) {
    |ps| == |vs| && forall i :: 0 <= i < |vs| ==> ParamTypeOf(vs[i]) == Some(ps[i].slot)
  }

  /** What a successful walk adds: one typed, named slot per caller value. */
  ghost predicate Accounts(before: Alloc, after: Alloc, names: seq<string>, values: seq<Json>) {
    && before.parameters <= after.parameters
    && var added := after.parameters[|before.parameters|..];
       names == Names(added) && Typed(added, values)
  }

  lemma AccountsCompose(a: Alloc, b: Alloc, c: Alloc, n1: seq<string>, n2: seq<string>, v1: seq<Json>, v2: seq<Json>)
    requires Accounts(a, b, n1, v1) && Accounts(b, c, n2, v2)
    ensures Accounts(a, c, n1 + n2, v1 + v2)
  {
    var ab, bc := b.parameters[|a.parameters|..], c.parameters[|b.parameters|..];
    assert c.parameters[|a.parameters|..] == ab + bc;
  }

  lemma {:induction false} WalkAccounts(node: Json, alloc: Alloc, hint: Option<string>)
    ensures var r := Walk(node, alloc, hint);
            r.Some? ==> Accounts(alloc, r.value.1, Slots(r.value.0), Values(node))
  {
    match node
    case Obj(fields) => WalkFieldsAccounts(fields, alloc, LocalHint(fields, hint));
    case Arr(items) => WalkItemsAccounts(items, alloc, hint);
    case _ =>
  }

  lemma {:induction false} WalkItemsAccounts(items: Items, alloc: Alloc, hint: Option<string>)
    ensures var r := WalkItems(items, alloc, hint);
            r.Some? ==> Accounts(alloc, r.value.1, SlotsOfItems(r.value.0), ValuesOfItems(items))
  {
    if items.Item? {
      WalkAccounts(items.head, alloc, hint);
      var h := Walk(items.head, alloc, hint);
      if h.Some? {
        WalkItemsAccounts(items.tail, h.value.1, hint);
        var t := WalkItems(items.tail, h.value.1, hint);
        if t.Some? {
          AccountsCompose(alloc, h.value.1, t.value.1, Slots(h.value.0), SlotsOfItems(t.value.0),
                          Values(items.head), ValuesOfItems(items.tail));
        }
      }
    }
  }

  lemma WalkLiteralAccounts(key: string, value: Json, alloc: Alloc, local: Option<string>)
    requires LiteralKey(key)
    ensures var h := WalkValue(key, value, alloc, local);
            h.Some? ==> && Bindable(h.value.0)
                        && Accounts(alloc, h.value.1, [h.value.0.fields.value.s], [value])
  {
    var slot := ParamTypeOf(value);
    if slot.Some? {
      var hint := SlotHint(key, local);
      AllocatedAccounts(alloc, BaseName(hint), hint, value);
      PlaceholderBinds(Allocated(alloc, hint, slot.value).parameters[|alloc.parameters|].name);
    }
  }

  lemma PlaceholderBinds(name: string)
    ensures Bindable(Placeholder(name)) && Placeholder(name).fields.value.s == name
  {
    assert OnlyKey(NoFields, "param");
    assert OnlyKey(Placeholder(name).fields, "param");
  }

  lemma AllocatedAccounts(alloc: Alloc, stem: string, hint: Option<string>, value: Json)
    requires ParamTypeOf(value).Some?
    ensures var next := AllocatedAs(alloc, stem, hint, ParamTypeOf(value).value);
            Accounts(alloc, next, [next.parameters[|alloc.parameters|].name], [value])
  {
    var next := AllocatedAs(alloc, stem, hint, ParamTypeOf(value).value);
    var n := |alloc.parameters|;
    assert next.parameters[n..] == [next.parameters[n]];
  }

  lemma {:induction false} WalkFieldsAccounts(fields: Fields, alloc: Alloc, local: Option<string>)
    ensures var r := WalkFields(fields, alloc, local);
            r.Some? ==> Accounts(alloc, r.value.1, SlotsOfFields(r.value.0), ValuesOfFields(fields))
  {
    match fields
    case NoFields =>
    case Field(key, value, rest) =>
      if Omitted(key, value) {
        WalkFieldsAccounts(rest, alloc, local);
      } else {
        var h := WalkValue(key, value, alloc, local);
        if h.Some? {
          WalkFieldsAccounts(rest, h.value.1, local);
          var t := WalkFields(rest, h.value.1, local);
          if t.None? {
          } else if LiteralKey(key) {
            WalkLiteralAccounts(key, value, alloc, local);
            AccountsCompose(alloc, h.value.1, t.value.1, [h.value.0.fields.value.s], SlotsOfFields(t.value.0),
                            [value], ValuesOfFields(rest));
          } else {
            WalkAccounts(value, alloc, local);
            AccountsCompose(alloc, h.value.1, t.value.1, Slots(h.value.0), SlotsOfFields(t.value.0),
                            Values(value), ValuesOfFields(rest));
          }
        }
      }
  }

  // The placeholders, read in walk order, are exactly the declared parameters
  // in order, each typed after the value it replaced.
  lemma PlaceholdersAreParameters(query: Json)
    requires Skeletonize(query).Some?
    ensures var shape := Skeletonize(query).value;
            && Slots(shape.skeleton) == Names(shape.parameters)
            && Typed(shape.parameters, Values(query))
  {
    WalkAccounts(query, EmptyAlloc, None);
    var ps := Skeletonize(query).value.parameters;
    assert ps[0..] == ps;
  }

  // -------------------------------------------------------- substitution

  type Env = map<string, Json>

  /** `_substitute`; None is an undefined parameter. */
  function Substitute(node: Json, env: Env): Option<Json> {
    match node
    case Obj(fields) =>
      if Bindable(node) then
        var name := fields.value.s;
        if name in env then Some(env[name]) else None
      else
        var r := SubstituteFields(fields, env);
        if r.Some? then Some(Obj(r.value)) else None
    case Arr(items) =>
      var r := SubstituteItems(items, env);
      if r.Some? then Some(Arr(r.value)) else None
    case _ => Some(node)
  }

  function SubstituteItems(items: Items, env: Env): Option<Items> {
    match items
    case NoItems => Some(NoItems)
    case Item(head, tail) =>
      var h, t := Substitute(head, env), SubstituteItems(tail, env);
      if h.Some? && t.Some? then Some(Item(h.value, t.value)) else None
  }

  function SubstituteFields(fields: Fields, env: Env): Option<Fields> {
    match fields
    case NoFields => Some(NoFields)
    case Field(key, value, rest) =>
      var h, t := Substitute(value, env), SubstituteFields(rest, env);
      if h.Some? && t.Some? then Some(Field(key, h.value, t.value)) else None
  }

  /** Outside its values, the query holds nothing that reads as a placeholder. */
  predicate NoStray(node: Json) {
    match node
    case Obj(fields) => !Bindable(node) && NoStrayFields(fields)
    case Arr(items) => NoStrayItems(items)
    case _ => true
  }

  predicate NoStrayItems(items: Items) {
    items.Item? ==> NoStray(items.head) && NoStrayItems(items.tail)
  }

  predicate NoStrayFields(fields: Fields) {
    fields.Field? ==> (LiteralKey(fields.key) || NoStray(fields.value)) && NoStrayFields(fields.rest)
  }

  ghost predicate Supplies(env: Env, names: seq<string>, values: seq<Json>) {
    && |names| == |values|
    && forall i :: 0 <= i < |names| ==> names[i] in env && env[names[i]] == values[i]
  }

  ghost predicate NoObjects(env: Env) {
    forall k :: k in env ==> !env[k].Obj?
  }

  lemma SuppliesSplits(env: Env, n1: seq<string>, n2: seq<string>, v1: seq<Json>, v2: seq<Json>)
    requires |n1| == |v1|
    ensures Supplies(env, n1 + n2, v1 + v2) <==> Supplies(env, n1, v1) && Supplies(env, n2, v2)
  {
    if Supplies(env, n1 + n2, v1 + v2) {
      forall i | 0 <= i < |n2|
        ensures n2[i] in env && env[n2[i]] == v2[i]
      {
        assert n2[i] == (n1 + n2)[|n1| + i] && v2[i] == (v1 + v2)[|v1| + i];
      }
      forall i | 0 <= i < |n1|
        ensures n1[i] in env && env[n1[i]] == v1[i]
      {
        assert n1[i] == (n1 + n2)[i] && v1[i] == (v1 + v2)[i];
      }
    }
  }

  // Substituting into a skeleton gives the stripped query back exactly when
  // every slot is supplied its own value and nothing else reads as a placeholder.
  lemma {:induction false} SubstituteRestores(node: Json, alloc: Alloc, hint: Option<string>, env: Env)
    requires NoObjects(env)
    requires Walk(node, alloc, hint).Some?
    ensures var s := Walk(node, alloc, hint).value.0;
            Substitute(s, env) == Some(Strip(node)) <==>
              NoStray(Strip(node)) && Supplies(env, Slots(s), Values(node))
  {
    match node
    case Obj(fields) =>
      var local := LocalHint(fields, hint);
      SubstituteFieldsRestores(fields, alloc, local, env);
      WalkBindable(fields, alloc, local);
    case Arr(items) => SubstituteItemsRestores(items, alloc, hint, env);
    case _ =>
  }

  // An object reads as a placeholder after the walk exactly if its stripped
  // form did.
  lemma {:induction false} WalkOnlyParam(fields: Fields, alloc: Alloc, local: Option<string>)
    requires WalkFields(fields, alloc, local).Some?
    ensures OnlyKey(WalkFields(fields, alloc, local).value.0, "param") <==> OnlyKey(StripFields(fields), "param")
  {
    match fields
    case NoFields =>
    case Field(key, value, rest) =>
      if Omitted(key, value) {
        WalkOnlyParam(rest, alloc, local);
      } else {
        WalkOnlyParam(rest, WalkValue(key, value, alloc, local).value.1, local);
      }
  }

  lemma {:induction false} WalkBindable(fields: Fields, alloc: Alloc, local: Option<string>)
    requires WalkFields(fields, alloc, local).Some?
    ensures Bindable(Obj(WalkFields(fields, alloc, local).value.0)) <==> Bindable(Obj(StripFields(fields)))
  {
    WalkOnlyParam(fields, alloc, local);
    match fields
    case NoFields =>
    case Field(key, value, rest) =>
      if Omitted(key, value) {
        WalkBindable(rest, alloc, local);
      } else if key == "param" {
        assert !LiteralKey("param");
        assert WalkValue(key, value, alloc, local) == Walk(value, alloc, local);
        assert Walk(value, alloc, local).value.0.Str? <==> Strip(value).Str?;
      }
  }

  lemma {:induction false} SubstituteItemsRestores(items: Items, alloc: Alloc, hint: Option<string>, env: Env)
    requires NoObjects(env)
    requires WalkItems(items, alloc, hint).Some?
    ensures var s := WalkItems(items, alloc, hint).value.0;
            SubstituteItems(s, env) == Some(StripItems(items)) <==>
              NoStrayItems(StripItems(items)) && Supplies(env, SlotsOfItems(s), ValuesOfItems(items))
  {
    if items.Item? {
      var h := Walk(items.head, alloc, hint).value;
      var t := WalkItems(items.tail, h.1, hint).value;
      SubstituteRestores(items.head, alloc, hint, env);
      SubstituteItemsRestores(items.tail, h.1, hint, env);
      WalkAccounts(items.head, alloc, hint);
      SuppliesSplits(env, Slots(h.0), SlotsOfItems(t.0), Values(items.head), ValuesOfItems(items.tail));
    }
  }

  lemma {:induction false} SubstituteFieldsRestores(fields: Fields, alloc: Alloc, local: Option<string>, env: Env)
    requires NoObjects(env)
    requires WalkFields(fields, alloc, local).Some?
    ensures var s := WalkFields(fields, alloc, local).value.0;
            SubstituteFields(s, env) == Some(StripFields(fields)) <==>
              NoStrayFields(StripFields(fields)) && Supplies(env, SlotsOfFields(s), ValuesOfFields(fields))
  {
    match fields
    case NoFields =>
    case Field(key, value, rest) =>
      if Omitted(key, value) {
        SubstituteFieldsRestores(rest, alloc, local, env);
      } else {
        var h := WalkValue(key, value, alloc, local).value;
        var t := WalkFields(rest, h.1, local).value;
        SubstituteFieldsRestores(rest, h.1, local, env);
        if LiteralKey(key) {
          WalkLiteralAccounts(key, value, alloc, local);
          SuppliesSplits(env, [h.0.fields.value.s], SlotsOfFields(t.0), [value], ValuesOfFields(rest));
          SubstituteSlot(h.0, value, env);
        } else {
          SubstituteRestores(value, alloc, local, env);
          WalkAccounts(value, alloc, local);
          SuppliesSplits(env, Slots(h.0), SlotsOfFields(t.0), Values(value), ValuesOfFields(rest));
        }
      }
  }

  lemma SubstituteSlot(slot: Json, value: Json, env: Env)
    requires Bindable(slot)
    ensures Supplies(env, [slot.fields.value.s], [value]) <==> Substitute(slot, env) == Some(value)
  {
    var names := [slot.fields.value.s];
    assert Supplies(env, names, [value]) <==> names[0] in env && env[names[0]] == value;
  }

  // ----------------------------------------- promotion and binding back

  /** The original values as a dict keyed by parameter name: the last one wins. */
  function Originals(ps: seq<Param>, vs: seq<Json>): Env
    requires |ps| == |vs|
  {
    if ps == [] then map[]
    else
      var n := |ps| - 1;
      Originals(ps[..n], vs[..n])[ps[n].name := vs[n]]
  }

  ghost predicate OneValuePerName(ps: seq<Param>, vs: seq<Json>)
    requires |ps| == |vs|
  {
    forall i, j :: 0 <= i < |ps| && 0 <= j < |ps| && ps[i].name == ps[j].name ==> vs[i] == vs[j]
  }

  lemma {:induction false} OriginalsKeys(ps: seq<Param>, vs: seq<Json>)
    requires |ps| == |vs|
    ensures forall k :: k in Originals(ps, vs) <==> k in Names(ps)
    ensures forall k :: k in Originals(ps, vs) ==> Originals(ps, vs)[k] in vs
  {
    if ps != [] {
      var n := |ps| - 1;
      OriginalsKeys(ps[..n], vs[..n]);
      assert Names(ps) == Names(ps[..n]) + [ps[n].name];
    }
  }

  lemma {:induction false} OriginalsConsistent(ps: seq<Param>, vs: seq<Json>)
    requires |ps| == |vs| && OneValuePerName(ps, vs)
    ensures Supplies(Originals(ps, vs), Names(ps), vs)
  {
    if ps != [] {
      var n := |ps| - 1;
      OriginalsConsistent(ps[..n], vs[..n]);
      forall i | 0 <= i < |ps|
        ensures ps[i].name in Originals(ps, vs) && Originals(ps, vs)[ps[i].name] == vs[i]
      {
        if i < n {
          assert ps[..n][i] == ps[i] && vs[..n][i] == vs[i] && Names(ps[..n])[i] == ps[i].name;
        }
      }
    }
  }

  // A dict of the original values supplies every slot exactly when equal names
  // stand for equal values.
  lemma OriginalsSupply(ps: seq<Param>, vs: seq<Json>)
    requires |ps| == |vs|
    ensures Supplies(Originals(ps, vs), Names(ps), vs) <==> OneValuePerName(ps, vs)
  {
    if OneValuePerName(ps, vs) {
      OriginalsConsistent(ps, vs);
    } else {
      var i, j :| 0 <= i < |ps| && 0 <= j < |ps| && ps[i].name == ps[j].name && vs[i] != vs[j];
      assert Names(ps)[i] == Names(ps)[j];
    }
  }

  lemma OriginalsHoldNoObjects(ps: seq<Param>, vs: seq<Json>)
    requires Typed(ps, vs)
    ensures NoObjects(Originals(ps, vs))
  {
    OriginalsKeys(ps, vs);
  }

  // Filling the slots with the original values restores the query, minus free
  // text and null literals, exactly when equal names stand for equal values.
  lemma FillRestoresIff(query: Json)
    requires Skeletonize(query).Some?
    requires NoStray(Strip(query))
    ensures var shape := Skeletonize(query).value;
            && |shape.parameters| == |Values(query)|
            && (Substitute(shape.skeleton, Originals(shape.parameters, Values(query))) == Some(Strip(query)) <==>
                  OneValuePerName(shape.parameters, Values(query)))
  {
    var shape, vs := Skeletonize(query).value, Values(query);
    PlaceholdersAreParameters(query);
    OriginalsHoldNoObjects(shape.parameters, vs);
    OriginalsSupply(shape.parameters, vs);
    SubstituteRestores(query, EmptyAlloc, None, Originals(shape.parameters, vs));
  }

  datatype Template = Template(parameters: seq<Param>, query: Json)

  /** `to_template_draft`: refused when parameter names repeat up to case. */
  ghost function Promote(shape: Shape): Option<Template> {
    if FoldDistinctParams(shape.parameters) then Some(Template(shape.parameters, shape.skeleton)) else None
  }

  predicate ScalarOk(ty: ParamType, v: Json) {
    match ty
    case BooleanT => v.Bool?
    case StringT => v.Str?
    case IntegerT => v.Int?
    case NumberT => v.Int? || v.Float?
  }

  predicate ScalarsOk(ty: ParamType, items: Items) {
    items.Item? ==> ScalarOk(ty, items.head) && ScalarsOk(ty, items.tail)
  }

  predicate Validates(slot: SlotType, v: Json) {
    if slot.isList then v.Arr? && v.items.Item? && ScalarsOk(slot.ty, v.items) else ScalarOk(slot.ty, v)
  }

  /** `bind_template` up to re-validation of the bound dict as a query. */
  function Bind(template: Template, supplied: Env): Option<Json> {
    if Accepts(template.parameters, supplied) then Substitute(template.query, supplied) else None
  }

  /** `_resolve_parameters`: no unknown name, and every slot gets a valid value. */
  predicate Accepts(ps: seq<Param>, supplied: Env) {
    && (forall k :: k in supplied ==> k in Names(ps))
    && (forall i :: 0 <= i < |ps| ==> ps[i].name in supplied && Validates(ps[i].slot, supplied[ps[i].name]))
  }

  predicate FlatItems(items: Items) {
    items.Item? ==> !items.head.Arr? && FlatItems(items.tail)
  }

  /** A list of scalars, or no list at all. */
  predicate Flat(v: Json) {
    v.Arr? ==> FlatItems(v.items)
  }

  lemma {:induction false} FlatScalars(items: Items, ty: ParamType)
    requires ElementType(items) == Some(ty)
    ensures ScalarsOk(ty, items) <==> FlatItems(items)
  {
    if items.tail.Item? {
      FlatScalars(items.tail, ty);
    }
  }

  // A value passes the slot inferred from it unless it nests lists.
  lemma OwnSlotAccepts(v: Json)
    requires ParamTypeOf(v).Some?
    ensures Validates(ParamTypeOf(v).value, v) <==> Flat(v)
  {
    if v.Arr? {
      FlatScalars(v.items, ParamTypeOf(v).value.ty);
    }
  }

  // Which values a slot takes: those of its own type, and integers where it wants
  // numbers; a list slot a non-empty list of these.
  lemma SlotTakes(ty: ParamType, v: Json, head: Json, tail: Items)
    ensures Validates(SlotType(ty, false), v) <==>
            ParamTypeOf(v) == Some(SlotType(ty, false)) || (ty == NumberT && v.Int?)
    ensures Validates(SlotType(ty, true), v) ==> v.Arr? && v != Arr(NoItems)
    ensures Validates(SlotType(ty, true), Arr(Item(head, tail))) <==>
            Validates(SlotType(ty, false), head) && (tail == NoItems || Validates(SlotType(ty, true), Arr(tail)))
  {
    assert ScalarsOk(ty, Item(head, tail)) <==> ScalarOk(ty, head) && ScalarsOk(ty, tail);
    match v {
      case Arr(items) => assert ParamTypeOf(v) != Some(SlotType(ty, false));
      case _ =>
    }
  }

  // Binding the original values is refused only for a value that nests lists.
  lemma BindOriginals(ps: seq<Param>, vs: seq<Json>)
    requires Typed(ps, vs) && OneValuePerName(ps, vs)
    ensures Accepts(ps, Originals(ps, vs)) <==> forall i :: 0 <= i < |vs| ==> Flat(vs[i])
  {
    var env := Originals(ps, vs);
    OriginalsKeys(ps, vs);
    OriginalsSupply(ps, vs);
    forall i | 0 <= i < |vs|
      ensures ps[i].name in env && (Validates(ps[i].slot, env[ps[i].name]) <==> Flat(vs[i]))
    {
      assert Names(ps)[i] == ps[i].name;
      OwnSlotAccepts(vs[i]);
    }
    AcceptsSlotwise(ps, vs, env);
  }

  lemma AcceptsSlotwise(ps: seq<Param>, vs: seq<Json>, env: Env)
    requires |ps| == |vs| && forall k :: k in env ==> k in Names(ps)
    requires forall i :: 0 <= i < |vs| ==> ps[i].name in env && (Validates(ps[i].slot, env[ps[i].name]) <==> Flat(vs[i]))
    ensures Accepts(ps, env) <==> forall i :: 0 <= i < |vs| ==> Flat(vs[i])
  {
  }

  lemma FoldDistinctMeansDistinct(ps: seq<Param>, vs: seq<Json>)
    requires |ps| == |vs| && FoldDistinctParams(ps)
    ensures OneValuePerName(ps, vs)
  {
  }

  // A promoted draft bound with the original values gives the query back exactly
  // when no value nests lists and nothing else reads as a placeholder.
  lemma PromotionRoundTrip(query: Json)
    requires Skeletonize(query).Some?
    requires Promote(Skeletonize(query).value).Some?
    ensures var shape, vs := Skeletonize(query).value, Values(query);
            && |shape.parameters| == |vs|
            && (Bind(Promote(shape).value, Originals(shape.parameters, vs)) == Some(Strip(query)) <==>
                  NoStray(Strip(query)) && forall i :: 0 <= i < |vs| ==> Flat(vs[i]))
  {
    var shape, vs := Skeletonize(query).value, Values(query);
    PlaceholdersAreParameters(query);
    FoldDistinctMeansDistinct(shape.parameters, vs);
    BindOriginals(shape.parameters, vs);
    OriginalsHoldNoObjects(shape.parameters, vs);
    OriginalsSupply(shape.parameters, vs);
    SubstituteRestores(query, EmptyAlloc, None, Originals(shape.parameters, vs));
  }
}
