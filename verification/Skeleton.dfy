// `skeletonize`: every caller value in a dumped query becomes a typed,
// named parameter slot, and free text is dropped.
module Skeleton {
  import opened Json
  import opened Text

  predicate LiteralKey(key: string) {
    key in {"value", "literal", "delimiter", "amount", "fraction", "buckets", "offset", "limit", "n"}
  }

  predicate DroppedKey(key: string) {
    key == "intent"
  }

  // ---------------------------------------------------------------- types

  datatype ParamType = BooleanT | IntegerT | NumberT | StringT

  datatype SlotType = SlotType(ty: ParamType, isList: bool)

  /** None stands for `SkeletonizationError`. */
  function ParamTypeOf(value: Json): Option<SlotType> {
    match value
    case Arr(items) =>
      var e := ElementType(items);
      if e.Some? then Some(SlotType(e.value, true)) else None
    case Bool(_) => Some(SlotType(BooleanT, false))
    case Int(_) => Some(SlotType(IntegerT, false))
    case Float(_) => Some(SlotType(NumberT, false))
    case Str(_) => Some(SlotType(StringT, false))
    case _ => None
  }

  /** The one type all elements share; an empty or mixed list has none. */
  function ElementType(items: Items): Option<ParamType> {
    match items
    case NoItems => None
    case Item(head, tail) =>
      var h := ParamTypeOf(head);
      if h.None? then None
      else if tail.NoItems? then Some(h.value.ty)
      else
        var t := ElementType(tail);
        if t == Some(h.value.ty) then t else None
  }

  // ---------------------------------------------------------------- names

  predicate IdentChar(c: char) {
    'a' <= c <= 'z' || 'A' <= c <= 'Z' || '0' <= c <= '9' || c == '_'
  }

  predicate IsIdentifier(s: string) {
    && |s| > 0
    && !IsDigit(s[0])
    && forall i :: 0 <= i < |s| ==> IdentChar(s[i])
  }

  function AfterLastDot(s: string): string {
    if s == [] then []
    else if '.' in s[1..] then AfterLastDot(s[1..])
    else if s[0] == '.' then s[1..]
    else s
  }

  /** Each maximal run of non-identifier characters becomes one underscore. */
  function Sanitize(s: string, inRun: bool := false): (r: string)
    ensures forall i :: 0 <= i < |r| ==> IdentChar(r[i])
  {
    if s == [] then []
    else if IdentChar(s[0]) then [s[0]] + Sanitize(s[1..], false)
    else (if inRun then [] else ['_']) + Sanitize(s[1..], true)
  }

  function StripLeft(s: string): (r: string)
    ensures forall i :: 0 <= i < |r| ==> r[i] in s
  {
    if s != [] && s[0] == '_' then StripLeft(s[1..]) else s
  }

  function StripRight(s: string): (r: string)
    ensures r <= s
  {
    if s != [] && s[|s| - 1] == '_' then StripRight(s[..|s| - 1]) else s
  }

  /** A parameter-name stem is always a legal identifier, whatever the hint. */
  function BaseName(hint: Option<string>): (stem: string)
    ensures IsIdentifier(stem)
  {
    if hint.None? || hint.value == "" then "param"
    else
      var stem := StripRight(StripLeft(Sanitize(AfterLastDot(hint.value))));
      if stem == "" || IsDigit(stem[0]) then "param" else stem
  }

  // ------------------------------------------------------------ allocator

  datatype Param = Param(name: string, slot: SlotType, hint: Option<string>)

  datatype Alloc = Alloc(used: map<string, nat>, parameters: seq<Param>)

  const EmptyAlloc := Alloc(map[], [])

  function Seen(used: map<string, nat>, stem: string): nat {
    if stem in used then used[stem] else 0
  }

  function SlotName(stem: string, seen: nat): string {
    if seen == 0 then stem else Suffixed(stem, seen + 1)
  }

  function Allocated(alloc: Alloc, hint: Option<string>, slot: SlotType): Alloc {
    AllocatedAs(alloc, BaseName(hint), hint, slot)
  }

  function AllocatedAs(alloc: Alloc, stem: string, hint: Option<string>, slot: SlotType): Alloc {
    var seen := Seen(alloc.used, stem);
    Alloc(alloc.used[stem := seen + 1], alloc.parameters + [Param(SlotName(stem, seen), slot, hint)])
  }

  // ----------------------------------------------------------------- walk

  /** A field the walk leaves out: free text, or a literal key holding null. */
  predicate Omitted(key: string, value: Json) {
    DroppedKey(key) || (LiteralKey(key) && value.Null?)
  }

  function Placeholder(name: string): Json {
    Obj(Field("param", Str(name), NoFields))
  }

  function LocalHint(fields: Fields, hint: Option<string>): Option<string> {
    var col := Lookup(fields, "col");
    if col.Some? && col.value.Str? then Some(col.value.s) else hint
  }

  function SlotHint(key: string, local: Option<string>): Option<string> {
    if key == "value" || key == "literal" then local else Some(key)
  }

  function Walk(node: Json, alloc: Alloc, hint: Option<string>): Option<(Json, Alloc)>
    decreases node, 0
  {
    match node
    case Obj(fields) =>
      var r := WalkFields(fields, alloc, LocalHint(fields, hint));
      if r.Some? then Some((Obj(r.value.0), r.value.1)) else None
    case Arr(items) =>
      var r := WalkItems(items, alloc, hint);
      if r.Some? then Some((Arr(r.value.0), r.value.1)) else None
    case _ => Some((node, alloc))
  }

  function WalkItems(items: Items, alloc: Alloc, hint: Option<string>): Option<(Items, Alloc)>
    decreases items, 0
  {
    match items
    case NoItems => Some((NoItems, alloc))
    case Item(head, tail) =>
      var h := Walk(head, alloc, hint);
      if h.None? then None else
      var t := WalkItems(tail, h.value.1, hint);
      if t.None? then None else Some((Item(h.value.0, t.value.0), t.value.1))
  }

  function WalkFields(fields: Fields, alloc: Alloc, local: Option<string>): Option<(Fields, Alloc)>
    decreases fields, 0
  {
    match fields
    case NoFields => Some((NoFields, alloc))
    case Field(key, value, rest) =>
      if Omitted(key, value) then WalkFields(rest, alloc, local) else
      var h := WalkValue(key, value, alloc, local);
      if h.None? then None else
      var t := WalkFields(rest, h.value.1, local);
      if t.None? then None else Some((Field(key, h.value.0, t.value.0), t.value.1))
  }

  function WalkValue(key: string, value: Json, alloc: Alloc, local: Option<string>): Option<(Json, Alloc)>
    decreases value, 1
  {
    if LiteralKey(key) then
      var slot := ParamTypeOf(value);
      if slot.None? then None else
      var next := Allocated(alloc, SlotHint(key, local), slot.value);
      Some((Placeholder(next.parameters[|alloc.parameters|].name), next))
    else Walk(value, alloc, local)
  }

  datatype Shape = Shape(skeleton: Json, parameters: seq<Param>)

  /** `skeletonize` on the dumped query, re-check included. */
  function Skeletonize(query: Json): Option<Shape> {
    var r := Walk(query, EmptyAlloc, None);
    if r.Some? && Clean(r.value.0) then Some(Shape(r.value.0, r.value.1.parameters)) else None
  }

  // ---------------------------------------------------- fail-closed check

  predicate IsPlaceholder(v: Json) {
    v.Obj? && v.fields.Field? && OnlyKey(v.fields, "param")
  }

  predicate OnlyKey(fields: Fields, key: string) {
    fields.Field? ==> fields.key == key && OnlyKey(fields.rest, key)
  }

  /** `_assert_no_literal_survived` raises nothing. */
  predicate Clean(node: Json) {
    match node
    case Obj(fields) => CleanFields(fields)
    case Arr(items) => CleanItems(items)
    case _ => true
  }

  predicate CleanItems(items: Items) {
    items.Item? ==> Clean(items.head) && CleanItems(items.tail)
  }

  predicate CleanFields(fields: Fields) {
    fields.Field? ==>
      && !DroppedKey(fields.key)
      && (if LiteralKey(fields.key) then IsPlaceholder(fields.value) else Clean(fields.value))
      && CleanFields(fields.rest)
  }

  // The re-check can never fire after a successful walk.
  lemma {:induction false} WalkIsClean(node: Json, alloc: Alloc, hint: Option<string>)
    ensures var r := Walk(node, alloc, hint); r.Some? ==> Clean(r.value.0)
  {
    match node
    case Obj(fields) => WalkFieldsIsClean(fields, alloc, LocalHint(fields, hint));
    case Arr(items) => WalkItemsIsClean(items, alloc, hint);
    case _ =>
  }

  lemma {:induction false} WalkItemsIsClean(items: Items, alloc: Alloc, hint: Option<string>)
    ensures var r := WalkItems(items, alloc, hint); r.Some? ==> CleanItems(r.value.0)
  {
    if items.Item? {
      WalkIsClean(items.head, alloc, hint);
      var h := Walk(items.head, alloc, hint);
      if h.Some? {
        WalkItemsIsClean(items.tail, h.value.1, hint);
      }
    }
  }

  lemma {:induction false} WalkFieldsIsClean(fields: Fields, alloc: Alloc, local: Option<string>)
    ensures var r := WalkFields(fields, alloc, local); r.Some? ==> CleanFields(r.value.0)
  {
    match fields
    case NoFields =>
    case Field(key, value, rest) =>
      if Omitted(key, value) {
        WalkFieldsIsClean(rest, alloc, local);
      } else {
        if !LiteralKey(key) {
          WalkIsClean(value, alloc, local);
        }
        var h := WalkValue(key, value, alloc, local);
        if h.Some? {
          WalkFieldsIsClean(rest, h.value.1, local);
        }
      }
  }

  // -------------------------------------------------- value independence

  /** Equal apart from free text, omitted nulls and the contents of literals of
      the same inferred type. */
  ghost predicate SameShape(a: Json, b: Json)
    decreases a, b
  {
    match a
    case Obj(fields) => b.Obj? && SameFields(fields, b.fields)
    case Arr(items) => b.Arr? && SameItems(items, b.items)
    case _ => a == b
  }

  ghost predicate SameItems(a: Items, b: Items)
    decreases a, b
  {
    if a.NoItems? then b.NoItems?
    else b.Item? && SameShape(a.head, b.head) && SameItems(a.tail, b.tail)
  }

  ghost predicate SameFields(a: Fields, b: Fields)
    decreases a, b
  {
    if a.Field? && Omitted(a.key, a.value) then SameFields(a.rest, b)
    else if b.Field? && Omitted(b.key, b.value) then SameFields(a, b.rest)
    else if a.NoFields? then b.NoFields?
    else
      && b.Field?
      && a.key == b.key
      && (if LiteralKey(a.key) then ParamTypeOf(a.value) == ParamTypeOf(b.value) else SameShape(a.value, b.value))
      && SameFields(a.rest, b.rest)
  }

  lemma {:induction false} SameLocalHint(a: Fields, b: Fields, hint: Option<string>)
    requires SameFields(a, b)
    ensures LocalHint(a, hint) == LocalHint(b, hint)
    decreases a, b
  {
    if a.Field? && Omitted(a.key, a.value) {
      SameLocalHint(a.rest, b, hint);
    } else if b.Field? && Omitted(b.key, b.value) {
      SameLocalHint(a, b.rest, hint);
    } else if a.Field? {
      SameLocalHint(a.rest, b.rest, hint);
    }
  }

  lemma {:induction false} SameShapeSameWalk(a: Json, b: Json, alloc: Alloc, hint: Option<string>)
    requires SameShape(a, b)
    ensures Walk(a, alloc, hint) == Walk(b, alloc, hint)
    decreases a, b
  {
    match a
    case Obj(fields) =>
      SameLocalHint(fields, b.fields, hint);
      SameFieldsSameWalk(fields, b.fields, alloc, LocalHint(fields, hint));
    case Arr(items) => SameItemsSameWalk(items, b.items, alloc, hint);
    case _ =>
  }

  lemma {:induction false} SameItemsSameWalk(a: Items, b: Items, alloc: Alloc, hint: Option<string>)
    requires SameItems(a, b)
    ensures WalkItems(a, alloc, hint) == WalkItems(b, alloc, hint)
    decreases a, b
  {
    if a.Item? {
      SameShapeSameWalk(a.head, b.head, alloc, hint);
      var h := Walk(a.head, alloc, hint);
      if h.Some? {
        SameItemsSameWalk(a.tail, b.tail, h.value.1, hint);
      }
    }
  }

  lemma {:induction false} SameFieldsSameWalk(a: Fields, b: Fields, alloc: Alloc, local: Option<string>)
    requires SameFields(a, b)
    ensures WalkFields(a, alloc, local) == WalkFields(b, alloc, local)
    decreases a, b
  {
    if a.Field? && Omitted(a.key, a.value) {
      SameFieldsSameWalk(a.rest, b, alloc, local);
    } else if b.Field? && Omitted(b.key, b.value) {
      SameFieldsSameWalk(a, b.rest, alloc, local);
    } else if a.Field? {
      if !LiteralKey(a.key) {
        SameShapeSameWalk(a.value, b.value, alloc, local);
      }
      var h := WalkValue(a.key, a.value, alloc, local);
      if h.Some? {
        SameFieldsSameWalk(a.rest, b.rest, h.value.1, local);
      }
    }
  }

  // Parameters are only ever appended.
  lemma {:induction false} WalkAppends(node: Json, alloc: Alloc, hint: Option<string>)
    ensures var r := Walk(node, alloc, hint); r.Some? ==> alloc.parameters <= r.value.1.parameters
  {
    match node
    case Obj(fields) => WalkFieldsAppends(fields, alloc, LocalHint(fields, hint));
    case Arr(items) => WalkItemsAppends(items, alloc, hint);
    case _ =>
  }

  lemma {:induction false} WalkItemsAppends(items: Items, alloc: Alloc, hint: Option<string>)
    ensures var r := WalkItems(items, alloc, hint); r.Some? ==> alloc.parameters <= r.value.1.parameters
  {
    if items.Item? {
      WalkAppends(items.head, alloc, hint);
      var h := Walk(items.head, alloc, hint);
      if h.Some? {
        WalkItemsAppends(items.tail, h.value.1, hint);
      }
    }
  }

  lemma {:induction false} WalkFieldsAppends(fields: Fields, alloc: Alloc, local: Option<string>)
    ensures var r := WalkFields(fields, alloc, local); r.Some? ==> alloc.parameters <= r.value.1.parameters
  {
    match fields
    case NoFields =>
    case Field(key, value, rest) =>
      if Omitted(key, value) {
        WalkFieldsAppends(rest, alloc, local);
      } else {
        if !LiteralKey(key) {
          WalkAppends(value, alloc, local);
        }
        var h := WalkValue(key, value, alloc, local);
        if h.Some? {
          WalkFieldsAppends(rest, h.value.1, local);
        }
      }
  }

  // Two walks that yield one skeleton, and parameters read off one list, come
  // from queries of one shape.
  lemma {:induction false} SameWalkSameShape(a: Json, b: Json, alloc: Alloc, hint: Option<string>, all: seq<Param>)
    requires var ra, rb := Walk(a, alloc, hint), Walk(b, alloc, hint);
             && ra.Some? && rb.Some? && ra.value.0 == rb.value.0
             && ra.value.1.parameters <= all && rb.value.1.parameters <= all
    ensures SameShape(a, b)
    decreases a, b, 1
  {
    match a
    case Obj(fields) =>
      SameWalkSameHint(fields, b.fields, alloc, hint);
      SameWalkSameFields(fields, b.fields, alloc, LocalHint(fields, hint), all);
    case Arr(items) => SameWalkSameItems(items, b.items, alloc, hint, all);
    case _ =>
  }

  // The skeleton keeps `col`, so both walks name their slots after the same column.
  lemma {:induction false} WalkKeepsHint(fields: Fields, alloc: Alloc, local: Option<string>, hint: Option<string>)
    ensures var r := WalkFields(fields, alloc, local);
            r.Some? ==> LocalHint(fields, hint) == LocalHint(r.value.0, hint)
  {
    match fields
    case NoFields =>
    case Field(key, value, rest) =>
      if Omitted(key, value) {
        WalkKeepsHint(rest, alloc, local, hint);
      } else {
        var h := WalkValue(key, value, alloc, local);
        if h.Some? {
          WalkKeepsHint(rest, h.value.1, local, hint);
          WalkKeepsStrings(key, value, alloc, local);
        }
      }
  }

  lemma WalkKeepsStrings(key: string, value: Json, alloc: Alloc, local: Option<string>)
    ensures var h := WalkValue(key, value, alloc, local);
            h.Some? && key == "col" ==> (h.value.0.Str? <==> value.Str?) && (value.Str? ==> h.value.0 == value)
  {
    assert !LiteralKey("col");
  }

  lemma SameWalkSameHint(a: Fields, b: Fields, alloc: Alloc, hint: Option<string>)
    requires var ra, rb := WalkFields(a, alloc, LocalHint(a, hint)), WalkFields(b, alloc, LocalHint(b, hint));
             ra.Some? && rb.Some? && ra.value.0 == rb.value.0
    ensures LocalHint(a, hint) == LocalHint(b, hint)
  {
    WalkKeepsHint(a, alloc, LocalHint(a, hint), hint);
    WalkKeepsHint(b, alloc, LocalHint(b, hint), hint);
  }

  lemma {:induction false} SameWalkSameItems(a: Items, b: Items, alloc: Alloc, hint: Option<string>, all: seq<Param>)
    requires var ra, rb := WalkItems(a, alloc, hint), WalkItems(b, alloc, hint);
             && ra.Some? && rb.Some? && ra.value.0 == rb.value.0
             && ra.value.1.parameters <= all && rb.value.1.parameters <= all
    ensures SameItems(a, b)
    decreases a, b, 0
  {
    if a.Item? {
      var ha, hb := Walk(a.head, alloc, hint), Walk(b.head, alloc, hint);
      WalkItemsAppends(a.tail, ha.value.1, hint);
      WalkItemsAppends(b.tail, hb.value.1, hint);
      SameWalkSameShape(a.head, b.head, alloc, hint, all);
      SameShapeSameWalk(a.head, b.head, alloc, hint);
      SameWalkSameItems(a.tail, b.tail, ha.value.1, hint, all);
    }
  }

  lemma {:induction false} SameWalkSameFields(a: Fields, b: Fields, alloc: Alloc, local: Option<string>, all: seq<Param>)
    requires var ra, rb := WalkFields(a, alloc, local), WalkFields(b, alloc, local);
             && ra.Some? && rb.Some? && ra.value.0 == rb.value.0
             && ra.value.1.parameters <= all && rb.value.1.parameters <= all
    ensures SameFields(a, b)
    decreases a, b, 0
  {
    if a.Field? && Omitted(a.key, a.value) {
      SameWalkSameFields(a.rest, b, alloc, local, all);
    } else if b.Field? && Omitted(b.key, b.value) {
      SameWalkSameFields(a, b.rest, alloc, local, all);
    } else if a.Field? {
      var ha, hb := WalkValue(a.key, a.value, alloc, local), WalkValue(b.key, b.value, alloc, local);
      WalkFieldsAppends(a.rest, ha.value.1, local);
      WalkFieldsAppends(b.rest, hb.value.1, local);
      if LiteralKey(a.key) {
        var n := |alloc.parameters|;
        assert ha.value.1.parameters[n] == all[n] == hb.value.1.parameters[n];
      } else {
        SameWalkSameShape(a.value, b.value, alloc, local, all);
        SameShapeSameWalk(a.value, b.value, alloc, local);
      }
      SameWalkSameFields(a.rest, b.rest, ha.value.1, local, all);
    }
  }

  // Two queries of one shape get one skeleton and one parameter list, or both
  // fail; and two queries that succeed with the same outcome have one shape.
  lemma SkeletonDecidesShape(a: Json, b: Json)
    ensures SameShape(a, b) ==> Skeletonize(a) == Skeletonize(b)
    ensures Skeletonize(a).Some? && Skeletonize(a) == Skeletonize(b) ==> SameShape(a, b)
  {
    if SameShape(a, b) {
      SameShapeSameWalk(a, b, EmptyAlloc, None);
    }
    if Skeletonize(a).Some? && Skeletonize(a) == Skeletonize(b) {
      SameWalkSameShape(a, b, EmptyAlloc, None, Skeletonize(a).value.parameters);
    }
  }

  /** Every literal the walk meets has a type a slot can express. */
  predicate Expressible(node: Json) {
    match node
    case Obj(fields) => ExpressibleFields(fields)
    case Arr(items) => ExpressibleItems(items)
    case _ => true
  }

  predicate ExpressibleItems(items: Items) {
    items.Item? ==> Expressible(items.head) && ExpressibleItems(items.tail)
  }

  predicate ExpressibleFields(fields: Fields) {
    fields.Field? ==>
      && (if Omitted(fields.key, fields.value) then true
          else if LiteralKey(fields.key) then ParamTypeOf(fields.value).Some?
          else Expressible(fields.value))
      && ExpressibleFields(fields.rest)
  }

  lemma {:induction false} WalkSucceeds(node: Json, alloc: Alloc, hint: Option<string>)
    ensures Walk(node, alloc, hint).Some? <==> Expressible(node)
  {
    match node
    case Obj(fields) => WalkFieldsSucceeds(fields, alloc, LocalHint(fields, hint));
    case Arr(items) => WalkItemsSucceeds(items, alloc, hint);
    case _ =>
  }

  lemma {:induction false} WalkItemsSucceeds(items: Items, alloc: Alloc, hint: Option<string>)
    ensures WalkItems(items, alloc, hint).Some? <==> ExpressibleItems(items)
  {
    if items.Item? {
      WalkSucceeds(items.head, alloc, hint);
      var h := Walk(items.head, alloc, hint);
      if h.Some? {
        WalkItemsSucceeds(items.tail, h.value.1, hint);
      }
    }
  }

  lemma {:induction false} WalkFieldsSucceeds(fields: Fields, alloc: Alloc, local: Option<string>)
    ensures WalkFields(fields, alloc, local).Some? <==> ExpressibleFields(fields)
  {
    match fields
    case NoFields =>
    case Field(key, value, rest) =>
      if Omitted(key, value) {
        WalkFieldsSucceeds(rest, alloc, local);
      } else {
        if !LiteralKey(key) {
          WalkSucceeds(value, alloc, local);
        }
        var h := WalkValue(key, value, alloc, local);
        if h.Some? {
          WalkFieldsSucceeds(rest, h.value.1, local);
        }
      }
  }

  // The re-check after the walk can never fire: skeletonization fails exactly
  // when some value has no slot type.
  lemma RecheckNeverFires(query: Json)
    ensures Skeletonize(query).Some? <==> Expressible(query)
    ensures Skeletonize(query).Some? ==> Clean(Skeletonize(query).value.skeleton)
  {
    WalkSucceeds(query, EmptyAlloc, None);
    WalkIsClean(query, EmptyAlloc, None);
  }

  // ----------------------------------------------------- imperative form

  /** The allocator `_walk` mutates as it goes. */
  class ParameterAllocator {
    var used: map<string, nat>
    var parameters: seq<Param>

    function State(): Alloc
      reads this
    {
      Alloc(used, parameters)
    }

    constructor ()
      ensures State() == EmptyAlloc
    {
      used, parameters := map[], [];
    }

    /** None, with nothing changed, when the value has no slot type. */
    method Allocate(hint: Option<string>, value: Json) returns (name: Option<string>)
      modifies this
      ensures name.Some? <==> ParamTypeOf(value).Some?
      ensures name.None? ==> State() == old(State())
      ensures name.Some? ==>
                && State() == Allocated(old(State()), hint, ParamTypeOf(value).value)
                && name.value == parameters[|old(parameters)|].name
    {
      var slot := ParamTypeOf(value);
      if slot.None? {
        return None;
      }
      var stem := BaseName(hint);
      var seen := if stem in used then used[stem] else 0;
      used := used[stem := seen + 1];
      var chosen := if seen == 0 then stem else stem + "_" + Decimal(seen + 1);
      parameters := parameters + [Param(chosen, slot.value, hint)];
      name := Some(chosen);
    }
  }

  /** `_walk`; None means it raised. */
  method WalkNode(node: Json, allocator: ParameterAllocator, hint: Option<string>) returns (out: Option<Json>)
    modifies allocator
    ensures var r := Walk(node, old(allocator.State()), hint);
            if r.None? then out.None? else out == Some(r.value.0) && allocator.State() == r.value.1
    decreases node, 0
  {
    match node {
      case Obj(fields) =>
        var done := WalkObject(fields, allocator, LocalHint(fields, hint));
        out := if done.None? then None else Some(Obj(done.value));
      case Arr(items) =>
        var done := WalkList(items, allocator, hint);
        out := if done.None? then None else Some(Arr(done.value));
      case _ =>
        out := Some(node);
    }
  }

  method WalkList(items: Items, allocator: ParameterAllocator, hint: Option<string>) returns (out: Option<Items>)
    modifies allocator
    ensures var r := WalkItems(items, old(allocator.State()), hint);
            if r.None? then out.None? else out == Some(r.value.0) && allocator.State() == r.value.1
    decreases items, 0
  {
    match items {
      case NoItems =>
        out := Some(NoItems);
      case Item(head, tail) =>
        var h := WalkNode(head, allocator, hint);
        if h.None? {
          return None;
        }
        var t := WalkList(tail, allocator, hint);
        out := if t.None? then None else Some(Item(h.value, t.value));
    }
  }

  method WalkObject(fields: Fields, allocator: ParameterAllocator, local: Option<string>) returns (out: Option<Fields>)
    modifies allocator
    ensures var r := WalkFields(fields, old(allocator.State()), local);
            if r.None? then out.None? else out == Some(r.value.0) && allocator.State() == r.value.1
    decreases fields, 0
  {
    match fields {
      case NoFields =>
        out := Some(NoFields);
      case Field(key, value, rest) =>
        if DroppedKey(key) || (LiteralKey(key) && value.Null?) {
          out := WalkObject(rest, allocator, local);
          return;
        }
        var v: Json;
        if LiteralKey(key) {
          var name := allocator.Allocate(SlotHint(key, local), value);
          if name.None? {
            return None;
          }
          v := Placeholder(name.value);
        } else {
          var h := WalkNode(value, allocator, local);
          if h.None? {
            return None;
          }
          v := h.value;
        }
        var t := WalkObject(rest, allocator, local);
        out := if t.None? then None else Some(Field(key, v, t.value));
    }
  }

  /** `skeletonize`: one walk with a new allocator, then the re-check. */
  method SkeletonizeQuery(query: Json) returns (shape: Option<Shape>)
    ensures shape == Skeletonize(query)
  {
    var allocator := new ParameterAllocator();
    var out := WalkNode(query, allocator, None);
    if out.None? || !Clean(out.value) {
      return None;
    }
    shape := Some(Shape(out.value, allocator.parameters));
  }
}
