// How parameters are named: after the column or the key they belong to, in the
// order of the query, with a counter for repeated names.
module NamingMeaning {
  import opened Json
  import opened Text
  import opened Skeleton
  import opened ParameterNames
  import opened NameCollision

  // ---------------------------------------------- the stem of a hint, by laws

  ghost predicate AllIdent(s: string) {
    forall i :: 0 <= i < |s| ==> IdentChar(s[i])
  }

  ghost predicate NoneIdent(s: string) {
    forall i :: 0 <= i < |s| ==> !IdentChar(s[i])
  }

  lemma {:induction false} NoDotNoChange(s: string)
    requires '.' !in s
    ensures AfterLastDot(s) == s
  {
  }

  lemma {:induction false} RunSkipped(gap: string, rest: string)
    requires NoneIdent(gap) && (rest == "" || IdentChar(rest[0]))
    ensures Sanitize(gap + rest, true) == Sanitize(rest, false)
  {
    if gap == [] {
      assert gap + rest == rest;
    } else {
      assert (gap + rest)[0] == gap[0] && (gap + rest)[1..] == gap[1..] + rest;
      RunSkipped(gap[1..], rest);
    }
  }

  lemma {:induction false} RunIsUnderscore(w: string, gap: string, rest: string, inRun: bool)
    requires gap != [] && NoneIdent(gap) && (rest == "" || IdentChar(rest[0]))
    requires if w == [] then !inRun else IdentChar(w[|w| - 1])
    ensures Sanitize(w + gap + rest, inRun) == Sanitize(w + ['_'] + rest, inRun)
  {
    var x, y := w + gap + rest, w + ['_'] + rest;
    if w == [] {
      assert x[0] == gap[0] && x[1..] == gap[1..] + rest;
      assert y[0] == '_' && y[1..] == rest;
      RunSkipped(gap[1..], rest);
    } else {
      assert x[0] == w[0] && x[1..] == w[1..] + gap + rest;
      assert y[0] == w[0] && y[1..] == w[1..] + ['_'] + rest;
      RunIsUnderscore(w[1..], gap, rest, !IdentChar(w[0]));
    }
  }

  lemma {:induction false} StripLeftSnoc(s: string)
    ensures StripLeft(s + ['_']) == if StripLeft(s) == "" then "" else StripLeft(s) + ['_']
  {
    if s == [] {
      assert s + ['_'] == ['_'] && StripLeft(['_'][1..]) == [];
    } else {
      assert (s + ['_'])[0] == s[0] && (s + ['_'])[1..] == s[1..] + ['_'];
      if s[0] == '_' {
        StripLeftSnoc(s[1..]);
      }
    }
  }

  // What comes before the last dot does not matter.
  lemma LastSegmentCounts(table: string, column: string)
    requires '.' !in column
    ensures BaseName(Some(table + "." + column)) == BaseName(Some(column))
  {
    AfterTable(table, column);
    NoDotNoChange(column);
  }

  // A run of other characters counts as one underscore.
  lemma GapIsUnderscore(w: string, gap: string, rest: string)
    requires gap != [] && NoneIdent(gap) && (rest == "" || IdentChar(rest[0])) && (w == "" || IdentChar(w[|w| - 1]))
    requires '.' !in w + gap + rest
    ensures BaseName(Some(w + gap + rest)) == BaseName(Some(w + ['_'] + rest))
  {
    RunIsUnderscore(w, gap, rest, false);
    NoDotNoChange(w + gap + rest);
    assert '.' !in w && '.' !in rest;
    NoDotNoChange(w + ['_'] + rest);
  }

  function Stripped(s: string): string {
    StripRight(StripLeft(s))
  }

  lemma StripIgnoresOuter(s: string)
    ensures Stripped(['_'] + s) == Stripped(s) == Stripped(s + ['_'])
  {
    assert (['_'] + s)[1..] == s;
    StripLeftSnoc(s);
    var t := StripLeft(s);
    assert (t + ['_'])[..|t|] == t;
  }

  lemma IdentHint(s: string)
    requires AllIdent(s)
    ensures AfterLastDot(s) == s && Sanitize(s) == s
  {
    SanitizeKeeps(s);
    NoDotNoChange(s);
  }

  lemma SameStripped(s: string, t: string)
    requires AllIdent(s) && AllIdent(t) && Stripped(s) == Stripped(t)
    ensures BaseName(Some(s)) == BaseName(Some(t))
  {
    IdentHint(s);
    IdentHint(t);
  }

  // Outer underscores do not count.
  lemma OuterUnderscores(s: string)
    requires AllIdent(s)
    ensures BaseName(Some(['_'] + s)) == BaseName(Some(s)) == BaseName(Some(s + ['_']))
  {
    StripIgnoresOuter(s);
    SameStripped(['_'] + s, s);
    SameStripped(s + ['_'], s);
  }

  // What is left is the stem unless it is empty or starts with a digit.
  lemma PlainStem(s: string)
    requires AllIdent(s) && (s != "" ==> s[0] != '_' && s[|s| - 1] != '_')
    ensures BaseName(Some(s)) == if s == "" || '0' <= s[0] <= '9' then "param" else s
    ensures BaseName(None) == "param"
  {
    SanitizeKeeps(s);
    NoDotNoChange(s);
  }

  // --------------------------------------------------- what names a parameter

  predicate HoldsValue(key: string) {
    || key == "value" || key == "literal" || key == "delimiter" || key == "amount" || key == "fraction"
    || key == "buckets" || key == "offset" || key == "limit" || key == "n"
  }

  /** The column the object itself names, else the one around it. */
  function Column(fields: Fields, around: Option<string>): Option<string> {
    match Lookup(fields, "col")
    case Some(Str(c)) => Some(c)
    case _ => around
  }

  /** For every value in the order of the query: its column for `value` and
      `literal`, and the key itself otherwise. */
  function Hints(node: Json, around: Option<string>): seq<Option<string>>
    decreases node, 0
  {
    match node
    case Obj(fields) => HintsOfFields(fields, Column(fields, around))
    case Arr(items) => HintsOfItems(items, around)
    case _ => []
  }

  function HintsOfItems(items: Items, around: Option<string>): seq<Option<string>>
    decreases items, 0
  {
    match items
    case NoItems => []
    case Item(head, tail) => Hints(head, around) + HintsOfItems(tail, around)
  }

  function HintsOfFields(fields: Fields, column: Option<string>): seq<Option<string>>
    decreases fields, 0
  {
    match fields
    case NoFields => []
    case Field(key, value, rest) =>
      if key == "intent" || (HoldsValue(key) && value == Null) then HintsOfFields(rest, column)
      else HintsOfValue(key, value, column) + HintsOfFields(rest, column)
  }

  function HintsOfValue(key: string, value: Json, column: Option<string>): seq<Option<string>>
    decreases value, 1
  {
    if key == "value" || key == "literal" then [column]
    else if HoldsValue(key) then [Some(key)]
    else Hints(value, column)
  }

  function HintsIn(ps: seq<Param>): (hs: seq<Option<string>>)
    ensures |hs| == |ps| && forall i :: 0 <= i < |ps| ==> hs[i] == ps[i].hint
  {
    seq(|ps|, i requires 0 <= i < |ps| => ps[i].hint)
  }

  lemma {:induction false} WalkHints(node: Json, alloc: Alloc, around: Option<string>)
    ensures var r := Walk(node, alloc, around);
            r.Some? ==> HintsIn(r.value.1.parameters) == HintsIn(alloc.parameters) + Hints(node, around)
    decreases node, 0
  {
    match node
    case Obj(fields) => WalkFieldsHints(fields, alloc, LocalHint(fields, around));
    case Arr(items) => WalkItemsHints(items, alloc, around);
    case _ =>
  }

  lemma {:induction false} WalkItemsHints(items: Items, alloc: Alloc, around: Option<string>)
    ensures var r := WalkItems(items, alloc, around);
            r.Some? ==> HintsIn(r.value.1.parameters) == HintsIn(alloc.parameters) + HintsOfItems(items, around)
    decreases items, 0
  {
    if items.Item? {
      WalkHints(items.head, alloc, around);
      var h := Walk(items.head, alloc, around);
      if h.Some? {
        WalkItemsHints(items.tail, h.value.1, around);
      }
    }
  }

  lemma {:induction false} WalkFieldsHints(fields: Fields, alloc: Alloc, column: Option<string>)
    ensures var r := WalkFields(fields, alloc, column);
            r.Some? ==> HintsIn(r.value.1.parameters) == HintsIn(alloc.parameters) + HintsOfFields(fields, column)
    decreases fields, 0
  {
    match fields
    case NoFields =>
    case Field(key, value, rest) =>
      OmittedIs(key, value);
      if Omitted(key, value) {
        WalkFieldsHints(rest, alloc, column);
      } else {
        WalkValueHints(key, value, alloc, column);
        var h := WalkValue(key, value, alloc, column);
        if h.Some? {
          WalkFieldsHints(rest, h.value.1, column);
          Associates(HintsIn(alloc.parameters), HintsOfValue(key, value, column), HintsOfFields(rest, column));
        }
      }
  }

  lemma Associates<T>(a: seq<T>, b: seq<T>, c: seq<T>)
    ensures (a + b) + c == a + (b + c)
  {
  }

  lemma {:induction false} WalkValueHints(key: string, value: Json, alloc: Alloc, column: Option<string>)
    requires !Omitted(key, value)
    ensures var r := WalkValue(key, value, alloc, column);
            r.Some? ==> HintsIn(r.value.1.parameters) == HintsIn(alloc.parameters) + HintsOfValue(key, value, column)
    decreases value, 1
  {
    KeysAre(key);
    if !LiteralKey(key) {
      WalkHints(value, alloc, column);
    }
  }

  lemma KeysAre(key: string)
    ensures HoldsValue(key) <==> LiteralKey(key)
    ensures key == "value" || key == "literal" ==> LiteralKey(key)
  {
  }

  lemma OmittedIs(key: string, value: Json)
    ensures Omitted(key, value) <==> key == "intent" || (HoldsValue(key) && value == Null)
  {
  }

  function Occurrences<T(==)>(s: seq<T>, x: T): nat {
    if s == [] then 0
    else if s[|s| - 1] == x then Occurrences(s[..|s| - 1], x) + 1
    else Occurrences(s[..|s| - 1], x)
  }

  lemma {:induction false} OccurrencesIs<T>(s: seq<T>, x: T)
    ensures Occurrences(s, x) == multiset(s)[x]
  {
    if s != [] {
      var n := |s| - 1;
      OccurrencesIs(s[..n], x);
      assert s == s[..n] + [s[n]];
    }
  }

  ghost function StemsOf(hs: seq<Option<string>>): (stems: seq<string>)
    ensures |stems| == |hs| && forall i :: 0 <= i < |hs| ==> stems[i] == BaseName(hs[i])
  {
    seq(|hs|, i requires 0 <= i < |hs| => BaseName(hs[i]))
  }

  lemma StemsAre(ps: seq<Param>, hs: seq<Option<string>>)
    requires HintsIn(ps) == hs
    ensures Stems(ps) == StemsOf(hs)
  {
  }

  lemma WalkNames(query: Json)
    requires Skeletonize(query).Some?
    ensures var ps := Skeletonize(query).value.parameters;
            HintsIn(ps) == Hints(query, None) && NamedBy(ps, Stems(ps))
  {
    WalkHints(query, EmptyAlloc, None);
    WalkWellNamed(query, EmptyAlloc, None);
  }

  /** The stem itself, and stem_2, stem_3 and so on from its second use on. */
  ghost predicate NamedInTurn(name: string, stems: seq<string>, i: nat)
    requires i < |stems|
  {
    var n := Occurrences(stems[..i], stems[i]);
    name == if n == 0 then stems[i] else stems[i] + "_" + Decimal(n + 1)
  }

  ghost predicate NamedAfter(ps: seq<Param>, hs: seq<Option<string>>) {
    && |ps| == |hs|
    && forall i :: 0 <= i < |ps| ==> ps[i].hint == hs[i] && NamedInTurn(ps[i].name, StemsOf(hs), i)
  }

  lemma NameAtIs(stems: seq<string>, i: nat)
    requires i < |stems|
    ensures NamedInTurn(NameAt(stems, i), stems, i)
  {
    OccurrencesIs(stems[..i], stems[i]);
  }

  lemma NamedByStems(ps: seq<Param>, hs: seq<Option<string>>, stems: seq<string>)
    requires |ps| == |hs| && (forall i :: 0 <= i < |ps| ==> ps[i].hint == hs[i])
    requires NamedBy(ps, stems) && stems == StemsOf(hs)
    ensures NamedAfter(ps, hs)
  {
    forall i | 0 <= i < |ps| ensures NamedInTurn(ps[i].name, stems, i) {
      NameAtIs(stems, i);
    }
  }

  // The parameters of a recorded query are its values in order, each named after
  // its hint and, where stems repeat, counted.
  lemma ParametersNamed(query: Json)
    requires Skeletonize(query).Some?
    ensures NamedAfter(Skeletonize(query).value.parameters, Hints(query, None))
  {
    WalkNames(query);
    var ps := Skeletonize(query).value.parameters;
    StemsAre(ps, Hints(query, None));
    NamedByStems(ps, Hints(query, None), Stems(ps));
  }
}
