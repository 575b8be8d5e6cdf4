// The parameter allocator is not collision-free: a dumped query whose filters
// get one name for two values.
module NameCollision {
  import opened Json
  import opened Text
  import opened Skeleton
  import opened TemplateBinding
  import opened DumpedQuery

  // ------------------------------------------------------- stems of columns

  lemma {:induction false} SanitizeKeeps(s: string)
    requires forall i :: 0 <= i < |s| ==> IdentChar(s[i])
    ensures Sanitize(s) == s
  {
    if s != [] {
      SanitizeKeeps(s[1..]);
    }
  }

  lemma {:induction false} AfterTable(table: string, column: string)
    requires '.' !in column
    ensures AfterLastDot(table + "." + column) == column
  {
    var s := table + "." + column;
    if table == [] {
      assert s[0] == '.' && s[1..] == column;
    } else {
      assert s[1..] == table[1..] + "." + column;
      assert s[1..][|table| - 1] == '.';
      AfterTable(table[1..], column);
    }
  }

  // A qualified column whose name has no outer underscore is its own stem.
  lemma StemIsColumn(table: string, s: string)
    requires IsIdentifier(s) && s[0] != '_' && s[|s| - 1] != '_'
    ensures BaseName(Some(table + "." + s)) == s
  {
    AfterTable(table, s);
    SanitizeKeeps(s);
    assert StripLeft(s) == s && StripRight(s) == s;
  }

  lemma StemOfSuffixed(table: string, stem: string, k: nat)
    requires IsIdentifier(stem) && stem[0] != '_'
    ensures BaseName(Some(table + "." + Suffixed(stem, k))) == Suffixed(stem, k)
  {
    var s := Suffixed(stem, k);
    assert s[0] == stem[0] && s[|s| - 1] == Decimal(k)[|Decimal(k)| - 1];
    StemIsColumn(table, s);
  }

  // ---------------------------------------------------------- the query

  /** Neither a literal, nor free text, nor a column hint. */
  predicate Plain(key: string) {
    !LiteralKey(key) && !DroppedKey(key) && key != "col"
  }

  /** Which fields hold literals, and which one names a column. */
  predicate Proper(k: Keys) {
    && Plain(k.table) && Plain(k.select) && Plain(k.distinct) && Plain(k.joins) && Plain(k.where) && Plain(k.terms)
    && Plain(k.group) && Plain(k.order) && Plain(k.correlate) && Plain(k.ctes) && Plain(k.op)
    && LiteralKey(k.offset) && !DroppedKey(k.offset) && k.offset != "col"
    && LiteralKey(k.value) && !DroppedKey(k.value) && k.value == "value"
    && !LiteralKey(k.col) && !DroppedKey(k.col) && k.col == "col"
  }

  lemma KeysAreProper()
    ensures Proper(KEYS)
  {
    assert Plain(KEYS.table) && Plain(KEYS.select) && Plain(KEYS.distinct) && Plain(KEYS.joins);
    assert Plain(KEYS.where) && Plain(KEYS.terms) && Plain(KEYS.group) && Plain(KEYS.order);
    assert Plain(KEYS.correlate) && Plain(KEYS.ctes) && Plain(KEYS.op);
  }

  function Test(k: Keys, column: string, v: int): Json {
    Obj(Field(k.col, Str(column), Field(k.op, Str(k.eq), Field(k.value, Int(v), NoFields))))
  }

  /** `select c1 from table where c1 = x and c1 = y and c3 = z`. */
  function Filtered(k: Keys, table: string, c1: string, c3: string, x: int, y: int, z: int): Json {
    Dump(k, table, None, Item(Str(c1), NoItems), Some(Where(k, c1, c3, x, y, z)), NoItems, Int(0), None)
  }

  function Where(k: Keys, c1: string, c3: string, x: int, y: int, z: int): Json {
    Obj(Field(k.terms, Arr(Tests(k, c1, c3, x, y, z)), NoFields))
  }

  function Tests(k: Keys, c1: string, c3: string, x: int, y: int, z: int): Items {
    Item(Test(k, c1, x), Item(Test(k, c1, y), Item(Test(k, c3, z), NoItems)))
  }

  // ----------------------------------------------------------- its walk

  const INT := SlotType(IntegerT, false)

  ghost predicate Leads(node: Json, hint: Option<string>, alloc: Alloc, end: Alloc) {
    Walk(node, alloc, hint).Some? && Walk(node, alloc, hint).value.1 == end
  }

  /** Fields without a column of their own. */
  ghost predicate Goes(fields: Fields, alloc: Alloc, end: Alloc) {
    && Lookup(fields, "col").None?
    && WalkFields(fields, alloc, None).Some? && WalkFields(fields, alloc, None).value.1 == end
  }

  lemma GoesPlain(key: string, value: Json, rest: Fields, alloc: Alloc, mid: Alloc, end: Alloc)
    requires Plain(key) && Leads(value, None, alloc, mid) && Goes(rest, mid, end)
    ensures Goes(Field(key, value, rest), alloc, end)
  {
  }

  lemma GoesConstant(key: string, value: Json, rest: Fields, alloc: Alloc, end: Alloc)
    requires Plain(key) && (value == Arr(NoItems) || value.Bool? || value.Str?) && Goes(rest, alloc, end)
    ensures Goes(Field(key, value, rest), alloc, end)
  {
    assert Leads(value, None, alloc, alloc);
    GoesPlain(key, value, rest, alloc, alloc, end);
  }

  lemma GoesObject(fields: Fields, alloc: Alloc, end: Alloc)
    requires Goes(fields, alloc, end)
    ensures Leads(Obj(fields), None, alloc, end)
  {
  }

  lemma TestLeads(k: Keys, column: string, v: int, alloc: Alloc)
    requires Proper(k)
    ensures Leads(Test(k, column, v), None, alloc, Allocated(alloc, Some(column), INT))
  {
    var hint := Some(column);
    var f3 := Field(k.value, Int(v), NoFields);
    var f2 := Field(k.op, Str(k.eq), f3);
    var next := Allocated(alloc, hint, INT);
    assert WalkFields(NoFields, next, hint) == Some((NoFields, next));
    assert WalkValue(k.value, Int(v), alloc, hint).value.1 == next;
    assert WalkFields(f3, alloc, hint).value.1 == next;
    assert WalkValue(k.op, Str(k.eq), alloc, hint) == Some((Str(k.eq), alloc));
    assert WalkFields(f2, alloc, hint).value.1 == next;
    assert WalkValue(k.col, Str(column), alloc, hint) == Some((Str(column), alloc));
  }

  lemma ItemLeads(head: Json, tail: Items, alloc: Alloc, mid: Alloc, end: Alloc)
    requires Leads(head, None, alloc, mid) && Leads(Arr(tail), None, mid, end)
    ensures Leads(Arr(Item(head, tail)), None, alloc, end)
  {
  }

  lemma TestsLead(k: Keys, c1: string, c3: string, x: int, y: int, z: int, a1: Alloc, a2: Alloc, a3: Alloc)
    requires Proper(k) && a1 == Allocated(EmptyAlloc, Some(c1), INT) && a2 == Allocated(a1, Some(c1), INT)
    requires a3 == Allocated(a2, Some(c3), INT)
    ensures Leads(Arr(Tests(k, c1, c3, x, y, z)), None, EmptyAlloc, a3)
  {
    TestLeads(k, c1, x, EmptyAlloc);
    TestLeads(k, c1, y, a1);
    TestLeads(k, c3, z, a2);
    var third := Item(Test(k, c3, z), NoItems);
    ItemLeads(Test(k, c3, z), NoItems, a2, a3, a3);
    ItemLeads(Test(k, c1, y), third, a1, a2, a3);
    ItemLeads(Test(k, c1, x), Item(Test(k, c1, y), third), EmptyAlloc, a1, a3);
  }

  lemma ClosingGoes(k: Keys, alloc: Alloc)
    requires Proper(k)
    ensures Goes(AfterWhere(k, NoItems, Int(0), None), alloc, Allocated(alloc, SlotHint(k.offset, None), INT))
  {
    var end := Allocated(alloc, SlotHint(k.offset, None), INT);
    var none := Arr(NoItems);
    var f5 := Field(k.ctes, none, NoFields);
    var f4 := Field(k.correlate, none, f5);
    var f3 := Field(k.offset, Int(0), f4);
    assert Goes(NoFields, end, end);
    GoesConstant(k.ctes, none, NoFields, end, end);
    GoesConstant(k.correlate, none, f5, end, end);
    assert WalkValue(k.offset, Int(0), alloc, None).value.1 == end;
    assert Goes(f3, alloc, end);
    GoesConstant(k.order, none, f3, alloc, end);
    GoesConstant(k.group, none, Field(k.order, none, f3), alloc, end);
  }

  lemma FilteredLeads(k: Keys, table: string, c1: string, c3: string, x: int, y: int, z: int, a3: Alloc)
    requires Proper(k) && Leads(Arr(Tests(k, c1, c3, x, y, z)), None, EmptyAlloc, a3)
    ensures Leads(Filtered(k, table, c1, c3, x, y, z), None, EmptyAlloc, Allocated(a3, SlotHint(k.offset, None), INT))
  {
    var end := Allocated(a3, SlotHint(k.offset, None), INT);
    var where, closing := Where(k, c1, c3, x, y, z), AfterWhere(k, NoItems, Int(0), None);
    assert Goes(NoFields, a3, a3);
    GoesPlain(k.terms, Arr(Tests(k, c1, c3, x, y, z)), NoFields, EmptyAlloc, a3, a3);
    GoesObject(where.fields, EmptyAlloc, a3);
    ClosingGoes(k, a3);
    var f5 := Field(k.where, where, closing);
    GoesPlain(k.where, where, closing, EmptyAlloc, a3, end);
    OpeningGoes(k, table, c1, f5, EmptyAlloc, end);
    GoesObject(Filtered(k, table, c1, c3, x, y, z).fields, EmptyAlloc, end);
  }

  lemma OpeningGoes(k: Keys, table: string, c1: string, rest: Fields, alloc: Alloc, end: Alloc)
    requires Proper(k) && Goes(rest, alloc, end)
    ensures Goes(Field(k.table, Str(table), Field(k.select, Arr(Item(Str(c1), NoItems)),
                 Field(k.distinct, Bool(false), Field(k.joins, Arr(NoItems), rest)))), alloc, end)
  {
    var f4 := Field(k.joins, Arr(NoItems), rest);
    var f3 := Field(k.distinct, Bool(false), f4);
    GoesConstant(k.joins, Arr(NoItems), rest, alloc, end);
    GoesConstant(k.distinct, Bool(false), f4, alloc, end);
    ItemLeads(Str(c1), NoItems, alloc, alloc, alloc);
    GoesPlain(k.select, Arr(Item(Str(c1), NoItems)), f3, alloc, alloc, end);
    GoesConstant(k.table, Str(table), Field(k.select, Arr(Item(Str(c1), NoItems)), f3), alloc, end);
  }

  // --------------------------------------------------------- the collision

  lemma CollidingStems(stem: string, third: string, h1: Option<string>, h3: Option<string>)
    requires third == Suffixed(stem, 2)
    ensures var a2 := AllocatedAs(AllocatedAs(EmptyAlloc, stem, h1, INT), stem, h1, INT);
            Names(AllocatedAs(a2, third, h3, INT).parameters) == [stem, third, third]
  {
    assert |third| != |stem|;
    var a1 := AllocatedAs(EmptyAlloc, stem, h1, INT);
    assert a1.used == map[stem := 1];
    var a2 := AllocatedAs(a1, stem, h1, INT);
    assert a2.used == map[stem := 2];
  }

  lemma WalkedIsRecorded(query: Json, alloc: Alloc)
    requires Leads(query, None, EmptyAlloc, alloc)
    ensures Skeletonize(query).Some? && Skeletonize(query).value.parameters == alloc.parameters
  {
    WalkIsClean(query, EmptyAlloc, None);
  }

  lemma SharedNameBlocksPromotion(shape: Shape, i: nat, j: nat)
    requires i < j < |shape.parameters| && Names(shape.parameters)[i] == Names(shape.parameters)[j]
    ensures Promote(shape).None?
  {
  }

  /** Three filters on columns `stem`, `stem` and `stem_2` of one table. */
  function Colliding(table: string, stem: string, x: int, y: int, z: int): Json {
    Filtered(KEYS, table, table + "." + stem, table + "." + Suffixed(stem, 2), x, y, z)
  }

  // Three filter values, two names: the second and third share `stem_2`, so the
  // recorded shape cannot be drafted as a template.
  lemma NamesCollide(table: string, stem: string, x: int, y: int, z: int)
    requires IsIdentifier(stem) && stem[0] != '_' && stem[|stem| - 1] != '_'
    ensures var r := Skeletonize(Colliding(table, stem, x, y, z));
            && r.Some? && |r.value.parameters| == 4
            && Names(r.value.parameters)[..3] == [stem, Suffixed(stem, 2), Suffixed(stem, 2)]
            && Promote(r.value).None?
  {
    var third := Suffixed(stem, 2);
    StemIsColumn(table, stem);
    StemOfSuffixed(table, stem, 2);
    KeysAreProper();
    CollidingOver(KEYS, table, table + "." + stem, table + "." + third, stem, third, x, y, z);
  }

  lemma CollidingOver(k: Keys, table: string, c1: string, c3: string, stem: string, third: string, x: int, y: int, z: int)
    requires Proper(k) && BaseName(Some(c1)) == stem && BaseName(Some(c3)) == third && third == Suffixed(stem, 2)
    ensures var r := Skeletonize(Filtered(k, table, c1, c3, x, y, z));
            && r.Some? && |r.value.parameters| == 4
            && Names(r.value.parameters)[..3] == [stem, third, third]
            && Promote(r.value).None?
  {
    var q := Filtered(k, table, c1, c3, x, y, z);
    var a1 := AllocatedAs(EmptyAlloc, stem, Some(c1), INT);
    var a2 := AllocatedAs(a1, stem, Some(c1), INT);
    var a3 := AllocatedAs(a2, third, Some(c3), INT);
    TestsLead(k, c1, c3, x, y, z, a1, a2, a3);
    FilteredLeads(k, table, c1, c3, x, y, z, a3);
    var end := Allocated(a3, SlotHint(k.offset, None), INT);
    WalkedIsRecorded(q, end);
    CollidingStems(stem, third, Some(c1), Some(c3));
    assert end.parameters[..3] == a3.parameters;
    assert Names(end.parameters)[..3] == Names(a3.parameters);
    SharedNameBlocksPromotion(Skeletonize(q).value, 1, 2);
  }
}
