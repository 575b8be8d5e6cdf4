// What a skeleton holds, told by the names of the fields alone: no free text, a
// placeholder under each of the nine value keys, and everything else untouched.
module SkeletonMeaning {
  import opened Json
  import opened Skeleton

  // ----------------------------------------------------------- free text

  /** Some object of the tree, at any depth, has this key. */
  predicate HoldsKey(node: Json, name: string) {
    match node
    case Obj(fields) => FieldsHoldKey(fields, name)
    case Arr(items) => ItemsHoldKey(items, name)
    case _ => false
  }

  predicate ItemsHoldKey(items: Items, name: string) {
    items.Item? && (HoldsKey(items.head, name) || ItemsHoldKey(items.tail, name))
  }

  predicate FieldsHoldKey(fields: Fields, name: string) {
    fields.Field? && (fields.key == name || HoldsKey(fields.value, name) || FieldsHoldKey(fields.rest, name))
  }

  lemma {:induction false} WalkDropsIntent(node: Json, alloc: Alloc, hint: Option<string>)
    ensures var r := Walk(node, alloc, hint); r.Some? ==> !HoldsKey(r.value.0, "intent")
  {
    match node
    case Obj(fields) => WalkFieldsDropsIntent(fields, alloc, LocalHint(fields, hint));
    case Arr(items) => WalkItemsDropsIntent(items, alloc, hint);
    case _ =>
  }

  lemma {:induction false} WalkItemsDropsIntent(items: Items, alloc: Alloc, hint: Option<string>)
    ensures var r := WalkItems(items, alloc, hint); r.Some? ==> !ItemsHoldKey(r.value.0, "intent")
  {
    if items.Item? {
      WalkDropsIntent(items.head, alloc, hint);
      var h := Walk(items.head, alloc, hint);
      if h.Some? {
        WalkItemsDropsIntent(items.tail, h.value.1, hint);
      }
    }
  }

  lemma SlotHoldsNoIntent(name: string)
    ensures !HoldsKey(Placeholder(name), "intent")
  {
    assert !FieldsHoldKey(NoFields, "intent") && !HoldsKey(Str(name), "intent");
    assert "param" != "intent";
  }

  lemma {:induction false} WalkFieldsDropsIntent(fields: Fields, alloc: Alloc, local: Option<string>)
    ensures var r := WalkFields(fields, alloc, local); r.Some? ==> !FieldsHoldKey(r.value.0, "intent")
  {
    match fields
    case NoFields =>
    case Field(key, value, rest) =>
      if Omitted(key, value) {
        WalkFieldsDropsIntent(rest, alloc, local);
      } else {
        assert key != "intent";
        var h := WalkValue(key, value, alloc, local);
        if h.Some? {
          if LiteralKey(key) {
            SlotHoldsNoIntent(h.value.0.fields.value.s);
          } else {
            WalkDropsIntent(value, alloc, local);
          }
          WalkFieldsDropsIntent(rest, h.value.1, local);
        }
      }
  }

  // The caller's free text is in no recorded skeleton, at any depth.
  lemma NoIntent(query: Json)
    requires Skeletonize(query).Some?
    ensures !HoldsKey(Skeletonize(query).value.skeleton, "intent")
  {
    WalkDropsIntent(query, EmptyAlloc, None);
  }

  /** The query without its free text, wherever it stands. */
  function WithoutIntent(node: Json): Json {
    match node
    case Obj(fields) => Obj(FieldsWithoutIntent(fields))
    case Arr(items) => Arr(ItemsWithoutIntent(items))
    case _ => node
  }

  function ItemsWithoutIntent(items: Items): Items {
    match items
    case NoItems => NoItems
    case Item(head, tail) => Item(WithoutIntent(head), ItemsWithoutIntent(tail))
  }

  function FieldsWithoutIntent(fields: Fields): Fields {
    match fields
    case NoFields => NoFields
    case Field(key, value, rest) =>
      if key == "intent" then FieldsWithoutIntent(rest)
      else Field(key, WithoutIntent(value), FieldsWithoutIntent(rest))
  }

  lemma {:induction false} SameSlotType(value: Json)
    ensures ParamTypeOf(WithoutIntent(value)) == ParamTypeOf(value)
  {
    if value.Arr? {
      SameElementType(value.items);
    }
  }

  lemma {:induction false} SameElementType(items: Items)
    ensures ElementType(ItemsWithoutIntent(items)) == ElementType(items)
  {
    if items.Item? {
      SameSlotType(items.head);
      SameElementType(items.tail);
    }
  }

  lemma {:induction false} SameColumn(fields: Fields)
    ensures var c, d := Lookup(FieldsWithoutIntent(fields), "col"), Lookup(fields, "col");
            (c.Some? <==> d.Some?) && (c.Some? ==> c.value == WithoutIntent(d.value))
  {
    if fields.Field? {
      assert "col" != "intent";
      SameColumn(fields.rest);
    }
  }

  lemma {:induction false} IntentUnwalked(node: Json, alloc: Alloc, hint: Option<string>)
    ensures Walk(WithoutIntent(node), alloc, hint) == Walk(node, alloc, hint)
  {
    match node
    case Obj(fields) =>
      SameColumn(fields);
      IntentFieldsUnwalked(fields, alloc, LocalHint(fields, hint));
    case Arr(items) => IntentItemsUnwalked(items, alloc, hint);
    case _ =>
  }

  lemma {:induction false} IntentItemsUnwalked(items: Items, alloc: Alloc, hint: Option<string>)
    ensures WalkItems(ItemsWithoutIntent(items), alloc, hint) == WalkItems(items, alloc, hint)
  {
    if items.Item? {
      IntentUnwalked(items.head, alloc, hint);
      var h := Walk(items.head, alloc, hint);
      if h.Some? {
        IntentItemsUnwalked(items.tail, h.value.1, hint);
      }
    }
  }

  lemma {:induction false} IntentFieldsUnwalked(fields: Fields, alloc: Alloc, local: Option<string>)
    ensures WalkFields(FieldsWithoutIntent(fields), alloc, local) == WalkFields(fields, alloc, local)
  {
    match fields
    case NoFields =>
    case Field(key, value, rest) =>
      if key == "intent" {
        assert DroppedKey(key);
        IntentFieldsUnwalked(rest, alloc, local);
      } else {
        SameSlotType(value);
        IntentUnwalked(value, alloc, local);
        IntentFieldsUnwalked(rest, alloc, local);
        var h := WalkValue(key, value, alloc, local);
        if h.Some? {
          IntentFieldsUnwalked(rest, h.value.1, local);
        }
      }
  }

  // Free text changes nothing, wherever it stands in the query.
  lemma IntentInvisible(query: Json)
    ensures Skeletonize(WithoutIntent(query)) == Skeletonize(query)
  {
    IntentUnwalked(query, EmptyAlloc, None);
  }

  // In particular a query recorded with a text and without it is one shape.
  lemma IntentDropped(text: string, fields: Fields)
    ensures Skeletonize(Obj(Field("intent", Str(text), fields))) == Skeletonize(Obj(fields))
  {
    IntentInvisible(Obj(Field("intent", Str(text), fields)));
    IntentInvisible(Obj(fields));
  }

  // --------------------------------------------------- values and structure

  /** The keys that hold caller values. */
  predicate ValueKey(key: string) {
    || key == "value" || key == "literal" || key == "delimiter" || key == "amount" || key == "fraction"
    || key == "buckets" || key == "offset" || key == "limit" || key == "n"
  }

  /** The tree with each caller value reduced to the fact that there is one. */
  function Outline(node: Json): Json {
    match node
    case Obj(fields) => Obj(OutlineFields(fields))
    case Arr(items) => Arr(OutlineItems(items))
    case _ => node
  }

  function OutlineItems(items: Items): Items {
    match items
    case NoItems => NoItems
    case Item(head, tail) => Item(Outline(head), OutlineItems(tail))
  }

  function OutlineFields(fields: Fields): Fields {
    match fields
    case NoFields => NoFields
    case Field(key, value, rest) =>
      if key == "intent" || (ValueKey(key) && value.Null?) then OutlineFields(rest)
      else Field(key, if ValueKey(key) then Bool(true) else Outline(value), OutlineFields(rest))
  }

  /** Each value key holds a parameter reference and nothing else. */
  predicate OnlySlots(node: Json) {
    match node
    case Obj(fields) => OnlySlotsInFields(fields)
    case Arr(items) => OnlySlotsInItems(items)
    case _ => true
  }

  predicate OnlySlotsInItems(items: Items) {
    items.Item? ==> OnlySlots(items.head) && OnlySlotsInItems(items.tail)
  }

  predicate OnlySlotsInFields(fields: Fields) {
    fields.Field? ==>
      && (if ValueKey(fields.key) then IsSlot(fields.value) else OnlySlots(fields.value))
      && OnlySlotsInFields(fields.rest)
  }

  predicate IsSlot(v: Json) {
    v.Obj? && v.fields.Field? && v.fields.key == "param" && v.fields.value.Str? && v.fields.rest.NoFields?
  }

  lemma ValueKeyIs(key: string)
    ensures ValueKey(key) <==> LiteralKey(key)
  {
  }

  lemma {:induction false} WalkOutlines(node: Json, alloc: Alloc, hint: Option<string>)
    ensures var r := Walk(node, alloc, hint); r.Some? ==> Outline(r.value.0) == Outline(node) && OnlySlots(r.value.0)
  {
    match node
    case Obj(fields) => WalkFieldsOutlines(fields, alloc, LocalHint(fields, hint));
    case Arr(items) => WalkItemsOutlines(items, alloc, hint);
    case _ =>
  }

  lemma {:induction false} WalkItemsOutlines(items: Items, alloc: Alloc, hint: Option<string>)
    ensures var r := WalkItems(items, alloc, hint);
            r.Some? ==> OutlineItems(r.value.0) == OutlineItems(items) && OnlySlotsInItems(r.value.0)
  {
    if items.Item? {
      WalkOutlines(items.head, alloc, hint);
      var h := Walk(items.head, alloc, hint);
      if h.Some? {
        WalkItemsOutlines(items.tail, h.value.1, hint);
      }
    }
  }

  lemma {:induction false} WalkFieldsOutlines(fields: Fields, alloc: Alloc, local: Option<string>)
    ensures var r := WalkFields(fields, alloc, local);
            r.Some? ==> OutlineFields(r.value.0) == OutlineFields(fields) && OnlySlotsInFields(r.value.0)
  {
    match fields
    case NoFields =>
    case Field(key, value, rest) =>
      ValueKeyIs(key);
      OmittedIs(key, value);
      if Omitted(key, value) {
        WalkFieldsOutlines(rest, alloc, local);
      } else {
        var h := WalkValue(key, value, alloc, local);
        if h.Some? {
          if !LiteralKey(key) {
            WalkOutlines(value, alloc, local);
          }
          WalkFieldsOutlines(rest, h.value.1, local);
        }
      }
  }

  lemma OmittedIs(key: string, value: Json)
    ensures Omitted(key, value) <==> key == "intent" || (ValueKey(key) && value.Null?)
  {
    ValueKeyIs(key);
  }

  // A recorded skeleton keeps every field of the query, in order and with its
  // value, but for free text and for the nine value keys; each of those holds
  // exactly a parameter reference, unless the query had null there.
  lemma StructureKept(query: Json)
    requires Skeletonize(query).Some?
    ensures var s := Skeletonize(query).value.skeleton; Outline(s) == Outline(query) && OnlySlots(s)
  {
    WalkOutlines(query, EmptyAlloc, None);
  }

  // ---------------------------------------------------------- slot types

  /** All elements have one type. */
  predicate EachOf(items: Items, ty: ParamType) {
    items.Item? ==> && ParamTypeOf(items.head).Some? && ParamTypeOf(items.head).value.ty == ty && EachOf(items.tail, ty)
  }

  lemma {:induction false} ElementTypeIs(items: Items, ty: ParamType)
    ensures ElementType(items) == Some(ty) <==> items.Item? && EachOf(items, ty)
  {
    if items.Item? {
      ElementTypeIs(items.tail, ty);
    }
  }

  // The type of a slot is that of the value it stands for: a boolean is not an
  // integer, and a list has the one type of all its elements or none.
  lemma SlotTypes(b: bool, i: int, r: real, s: string, items: Items, fields: Fields, ty: ParamType)
    ensures ParamTypeOf(Bool(b)) == Some(SlotType(BooleanT, false)) && ParamTypeOf(Int(i)) == Some(SlotType(IntegerT, false))
    ensures ParamTypeOf(Float(r)) == Some(SlotType(NumberT, false)) && ParamTypeOf(Str(s)) == Some(SlotType(StringT, false))
    ensures ParamTypeOf(Null).None? && ParamTypeOf(Obj(fields)).None?
    ensures ParamTypeOf(Arr(items)) == Some(SlotType(ty, true)) <==> items.Item? && EachOf(items, ty)
    ensures ParamTypeOf(Arr(items)).Some? ==> ParamTypeOf(Arr(items)).value.isList
  {
    ElementTypeIs(items, ty);
  }
}
