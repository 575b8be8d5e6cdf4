// `prune_schema`: drop excluded paths, then collect the component schemas no
// surviving path can reach by references.
module SchemaPrune {
  import opened Json

  const REF_PREFIX := "#/components/schemas/"

  type Components = map<string, Json>

  /** The schema a reference string names, if it is a schema reference. */
  function Target(ref: string): set<string> {
    if REF_PREFIX <= ref then {ref[|REF_PREFIX|..]} else {}
  }

  /** `_schema_refs`: every schema referenced anywhere under a node. */
  function Refs(node: Json): set<string> {
    match node
    case Obj(fields) =>
      var ref := Lookup(fields, "$ref");
      (if ref.Some? && ref.value.Str? then Target(ref.value.s) else {}) + RefsOfFields(fields)
    case Arr(items) => RefsOfItems(items)
    case _ => {}
  }

  function RefsOfFields(fields: Fields): set<string> {
    match fields
    case NoFields => {}
    case Field(_, value, rest) => Refs(value) + RefsOfFields(rest)
  }

  function RefsOfItems(items: Items): set<string> {
    match items
    case NoItems => {}
    case Item(head, tail) => Refs(head) + RefsOfItems(tail)
  }

  /** The paths that are not excluded. */
  function Surviving(paths: Fields, excluded: string -> bool): Fields {
    match paths
    case NoFields => NoFields
    case Field(path, item, rest) =>
      if excluded(path) then Surviving(rest, excluded) else Field(path, item, Surviving(rest, excluded))
  }

  // -------------------------------------------------------- reachability

  /** A chain of references that starts at a root and stays among components. */
  ghost predicate Chain(roots: set<string>, comps: Components, p: seq<string>) {
    && p != []
    && p[0] in roots
    && (forall i :: 0 <= i < |p| ==> p[i] in comps)
    && (forall i :: 0 <= i < |p| - 1 ==> p[i + 1] in Refs(comps[p[i]]))
  }

  ghost predicate Reachable(roots: set<string>, comps: Components, name: string) {
    exists p :: Chain(roots, comps, p) && p[|p| - 1] == name
  }

  /** Contains every component a root or a member refers to. */
  ghost predicate Closed(roots: set<string>, comps: Components, s: set<string>) {
    && (forall n :: n in roots && n in comps ==> n in s)
    && (forall m, n :: m in s && m in comps && n in Refs(comps[m]) && n in comps ==> n in s)
  }

  lemma RootReachable(roots: set<string>, comps: Components, name: string)
    requires name in roots && name in comps
    ensures Reachable(roots, comps, name)
  {
    var p := [name];
    assert Chain(roots, comps, p) && p[|p| - 1] == name;
  }

  lemma ReferenceReachable(roots: set<string>, comps: Components, from: string, name: string)
    requires Reachable(roots, comps, from) && from in comps && name in comps && name in Refs(comps[from])
    ensures Reachable(roots, comps, name)
  {
    var p :| Chain(roots, comps, p) && p[|p| - 1] == from;
    var q := p + [name];
    forall i | 0 <= i < |q| - 1
      ensures q[i + 1] in Refs(comps[q[i]])
    {
      assert i < |p| - 1 ==> q[i + 1] == p[i + 1];
    }
    assert Chain(roots, comps, q) && q[|q| - 1] == name;
  }

  lemma {:induction false} ChainInside(roots: set<string>, comps: Components, s: set<string>, p: seq<string>, i: nat)
    requires Closed(roots, comps, s) && Chain(roots, comps, p) && i < |p|
    ensures p[i] in s
  {
    if i > 0 {
      ChainInside(roots, comps, s, p, i - 1);
      assert p[i - 1 + 1] in Refs(comps[p[i - 1]]);
    }
  }

  // The reachable components are the least closed set.
  lemma ReachableIsLeast(roots: set<string>, comps: Components, s: set<string>, name: string)
    requires Closed(roots, comps, s) && Reachable(roots, comps, name)
    ensures name in s
  {
    var p :| Chain(roots, comps, p) && p[|p| - 1] == name;
    ChainInside(roots, comps, s, p, |p| - 1);
  }

  // ------------------------------------------------- references by position

  /** Child number i of an object or a list. */
  function Child(node: Json, i: nat): Option<Json> {
    match node
    case Obj(fields) => FieldAt(fields, i)
    case Arr(items) => ItemAt(items, i)
    case _ => None
  }

  function FieldAt(fields: Fields, i: nat): Option<Json> {
    match fields
    case NoFields => None
    case Field(_, value, rest) => if i == 0 then Some(value) else FieldAt(rest, i - 1)
  }

  function ItemAt(items: Items, i: nat): Option<Json> {
    match items
    case NoItems => None
    case Item(head, tail) => if i == 0 then Some(head) else ItemAt(tail, i - 1)
  }

  /** What stands at a position: a path of field and list indices. */
  function NodeAt(node: Json, path: seq<nat>): Option<Json>
    decreases |path|
  {
    if path == [] then Some(node)
    else if Child(node, path[0]).Some? then NodeAt(Child(node, path[0]).value, path[1..])
    else None
  }

  /** At this position stands an object whose `$ref` names schema n. */
  predicate RefersAt(node: Json, path: seq<nat>, n: string) {
    var at := NodeAt(node, path);
    at.Some? && at.value.Obj? && Lookup(at.value.fields, "$ref") == Some(Str("#/components/schemas/" + n))
  }

  /** Somewhere under the node there is a reference to schema n. */
  ghost predicate RefersTo(node: Json, n: string) {
    exists path :: RefersAt(node, path, n)
  }

  lemma TargetIs(ref: string, n: string)
    ensures n in Target(ref) <==> ref == "#/components/schemas/" + n
  {
    if REF_PREFIX <= ref {
      assert ref == REF_PREFIX + ref[|REF_PREFIX|..];
      assert (REF_PREFIX + n)[|REF_PREFIX|..] == n;
    }
  }

  ghost predicate SomeChild(node: Json, n: string) {
    exists i: nat :: Child(node, i).Some? && RefersTo(Child(node, i).value, n)
  }

  lemma SomeChildOf(fields: Fields, items: Items, n: string)
    ensures SomeChild(Obj(fields), n) <==> SomeField(fields, n)
    ensures SomeChild(Arr(items), n) <==> SomeItem(items, n)
  {
    forall i: nat ensures Child(Obj(fields), i) == FieldAt(fields, i) && Child(Arr(items), i) == ItemAt(items, i) {
    }
    if i: nat :| FieldAt(fields, i).Some? && RefersTo(FieldAt(fields, i).value, n) {
      assert Child(Obj(fields), i) == FieldAt(fields, i);
    }
    if i: nat :| ItemAt(items, i).Some? && RefersTo(ItemAt(items, i).value, n) {
      assert Child(Arr(items), i) == ItemAt(items, i);
    }
  }

  lemma HereOrBelow(node: Json, n: string)
    ensures RefersTo(node, n) <==>
            RefersAt(node, [], n) || SomeChild(node, n)
  {
    if path :| RefersAt(node, path, n) {
      if path != [] {
        assert RefersAt(Child(node, path[0]).value, path[1..], n);
        assert RefersTo(Child(node, path[0]).value, n);
      }
    }
    if i: nat :| Child(node, i).Some? && RefersTo(Child(node, i).value, n) {
      var path :| RefersAt(Child(node, i).value, path, n);
      var longer := [i] + path;
      assert longer[1..] == path;
      assert RefersAt(node, longer, n);
    }
  }

  ghost predicate SomeField(fields: Fields, n: string) {
    exists i: nat :: FieldAt(fields, i).Some? && RefersTo(FieldAt(fields, i).value, n)
  }

  ghost predicate SomeItem(items: Items, n: string) {
    exists i: nat :: ItemAt(items, i).Some? && RefersTo(ItemAt(items, i).value, n)
  }

  // `Refs` collects exactly the schemas that some position refers to, inside
  // lists as well as inside objects.
  lemma {:induction false} RefsIff(node: Json, n: string)
    ensures n in Refs(node) <==> RefersTo(node, n)
  {
    HereOrBelow(node, n);
    match node
    case Obj(fields) =>
      RefsOfFieldsIff(fields, n);
      var ref := Lookup(fields, "$ref");
      if ref.Some? && ref.value.Str? {
        TargetIs(ref.value.s, n);
      }
      SomeChildOf(fields, NoItems, n);
    case Arr(items) =>
      RefsOfItemsIff(items, n);
      SomeChildOf(NoFields, items, n);
    case _ =>
  }

  lemma {:induction false} RefsOfFieldsIff(fields: Fields, n: string)
    ensures n in RefsOfFields(fields) <==> SomeField(fields, n)
  {
    if fields.Field? {
      RefsIff(fields.value, n);
      RefsOfFieldsIff(fields.rest, n);
      if i: nat :| FieldAt(fields, i).Some? && RefersTo(FieldAt(fields, i).value, n) {
        if i > 0 {
          assert FieldAt(fields.rest, i - 1) == FieldAt(fields, i);
        }
      }
      if RefersTo(fields.value, n) {
        assert FieldAt(fields, 0) == Some(fields.value);
      }
      if i: nat :| FieldAt(fields.rest, i).Some? && RefersTo(FieldAt(fields.rest, i).value, n) {
        assert FieldAt(fields, i + 1) == FieldAt(fields.rest, i);
      }
    }
  }

  lemma {:induction false} RefsOfItemsIff(items: Items, n: string)
    ensures n in RefsOfItems(items) <==> SomeItem(items, n)
  {
    if items.Item? {
      RefsIff(items.head, n);
      RefsOfItemsIff(items.tail, n);
      if i: nat :| ItemAt(items, i).Some? && RefersTo(ItemAt(items, i).value, n) {
        if i > 0 {
          assert ItemAt(items.tail, i - 1) == ItemAt(items, i);
        }
      }
      if RefersTo(items.head, n) {
        assert ItemAt(items, 0) == Some(items.head);
      }
      if i: nat :| ItemAt(items.tail, i).Some? && RefersTo(ItemAt(items.tail, i).value, n) {
        assert ItemAt(items, i + 1) == ItemAt(items.tail, i);
      }
    }
  }

  /** A chain of references, read off the documents: the first component is
      referred to by a kept path, each next one by the one before. */
  ghost predicate RefChain(kept: Json, comps: Components, p: seq<string>) {
    && p != [] && RefersTo(kept, p[0])
    && (forall i :: 0 <= i < |p| ==> p[i] in comps)
    && (forall i :: 0 <= i < |p| - 1 ==> RefersTo(comps[p[i]], p[i + 1]))
  }

  ghost predicate Needed(kept: Json, comps: Components, name: string) {
    exists p :: RefChain(kept, comps, p) && p[|p| - 1] == name
  }

  lemma RefChainIs(kept: Json, comps: Components, p: seq<string>)
    ensures RefChain(kept, comps, p) <==> Chain(Refs(kept), comps, p)
  {
    if p != [] {
      RefsIff(kept, p[0]);
    }
    if forall i :: 0 <= i < |p| ==> p[i] in comps {
      forall i | 0 <= i < |p| - 1 ensures p[i + 1] in Refs(comps[p[i]]) <==> RefersTo(comps[p[i]], p[i + 1]) {
        RefsIff(comps[p[i]], p[i + 1]);
      }
    }
  }

  lemma NeededIff(kept: Json, comps: Components, name: string)
    ensures Needed(kept, comps, name) <==> Reachable(Refs(kept), comps, name)
  {
    forall p ensures RefChain(kept, comps, p) <==> Chain(Refs(kept), comps, p) {
      RefChainIs(kept, comps, p);
    }
  }

  /** No reference in a kept path or a kept component names a removed component. */
  ghost predicate NothingDangles(kept: Json, comps: Components, schemas: Components) {
    && (forall path, n :: RefersAt(kept, path, n) && n in comps ==> n in schemas)
    && (forall m, path, n :: m in schemas && RefersAt(schemas[m], path, n) && n in comps ==> n in schemas)
  }

  lemma ClosedNeverDangles(kept: Json, comps: Components, schemas: Components)
    requires Closed(Refs(kept), comps, schemas.Keys) && forall n :: n in schemas ==> n in comps && schemas[n] == comps[n]
    ensures NothingDangles(kept, comps, schemas)
  {
    forall path, n | RefersAt(kept, path, n) && n in comps ensures n in schemas {
      RefsIff(kept, n);
    }
    forall m, path, n | m in schemas && RefersAt(schemas[m], path, n) && n in comps ensures n in schemas {
      RefsIff(schemas[m], n);
    }
  }

  /** Number of the fields with this name and content. */
  function Occurrences(fields: Fields, name: string, item: Json): nat {
    match fields
    case NoFields => 0
    case Field(k, v, rest) => (if k == name && v == item then 1 else 0) + Occurrences(rest, name, item)
  }

  // Exactly the excluded paths go; every other one stays, with its item.
  lemma {:induction false} SurvivingExact(paths: Fields, excluded: string -> bool, name: string, item: Json)
    ensures Occurrences(Surviving(paths, excluded), name, item) ==
            if excluded(name) then 0 else Occurrences(paths, name, item)
  {
    if paths.Field? {
      SurvivingExact(paths.rest, excluded, name, item);
    }
  }

  // --------------------------------------------------------- the worklist

  method Prune(paths: Fields, comps: Components, excluded: string -> bool)
    returns (kept: Fields, schemas: Components)
    ensures forall name, item :: Occurrences(kept, name, item) == if excluded(name) then 0 else Occurrences(paths, name, item)
    ensures forall n :: n in schemas <==> Needed(Obj(kept), comps, n)
    ensures forall n :: n in schemas ==> n in comps && schemas[n] == comps[n]
    ensures NothingDangles(Obj(kept), comps, schemas)
  {
    kept := Surviving(paths, excluded);
    forall name, item ensures Occurrences(kept, name, item) == if excluded(name) then 0 else Occurrences(paths, name, item) {
      SurvivingExact(paths, excluded, name, item);
    }
    schemas := KeptSchemas(Obj(kept), comps);
    ClosedNeverDangles(Obj(kept), comps, schemas);
  }

  method KeptSchemas(kept: Json, comps: Components) returns (schemas: Components)
    ensures forall n :: n in schemas <==> Needed(kept, comps, n)
    ensures forall n :: n in schemas ==> n in comps && schemas[n] == comps[n]
    ensures Closed(Refs(kept), comps, schemas.Keys)
  {
    if comps == map[] {
      NothingNeeded(kept);
      schemas := comps;
      return;
    }
    var reachable := Closure(Refs(kept), comps);
    schemas := map n | n in comps && n in reachable :: comps[n];
    assert schemas.Keys == reachable;
    forall n ensures n in schemas <==> Needed(kept, comps, n) {
      NeededIff(kept, comps, n);
    }
  }

  lemma NothingNeeded(kept: Json)
    ensures forall n :: !Needed(kept, map[], n)
  {
    var none: Components := map[];
    forall p ensures !RefChain(kept, none, p) {
      assert p != [] ==> p[0] !in none;
    }
  }

  /** The `reachable` and `frontier` loop. */
  method Closure(roots: set<string>, comps: Components) returns (reachable: set<string>)
    ensures reachable <= comps.Keys && Closed(roots, comps, reachable)
    ensures forall n :: n in reachable <==> Reachable(roots, comps, n)
  {
    reachable := {};
    var frontier := roots;
    forall n | n in roots && n in comps
      ensures Reachable(roots, comps, n)
    {
      RootReachable(roots, comps, n);
    }
    while frontier != {}
      invariant reachable <= comps.Keys
      invariant forall n :: n in reachable ==> Reachable(roots, comps, n)
      invariant forall n :: n in frontier && n in comps ==> Reachable(roots, comps, n)
      invariant Pending(roots, comps, reachable, frontier)
      decreases comps.Keys - reachable, frontier
    {
      var name :| name in frontier;
      frontier := frontier - {name};
      if name in reachable || name !in comps {
        continue;
      }
      reachable := reachable + {name};
      var nested := Refs(comps[name]);
      forall n | n in nested && n in comps
        ensures Reachable(roots, comps, n)
      {
        ReferenceReachable(roots, comps, name, n);
      }
      frontier := frontier + (nested - reachable);
    }
    forall n | Reachable(roots, comps, n)
      ensures n in reachable
    {
      ReachableIsLeast(roots, comps, reachable, n);
    }
  }

  /** Every component that a root or a visited component refers to has been
      visited or is still on the frontier. */
  ghost predicate Pending(roots: set<string>, comps: Components, reachable: set<string>, frontier: set<string>) {
    && (forall n :: n in roots && n in comps ==> n in reachable || n in frontier)
    && (forall m, n :: m in reachable && m in comps && n in Refs(comps[m]) && n in comps ==> n in reachable || n in frontier)
  }
}
