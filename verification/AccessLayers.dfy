// The order of the access report, and what the layers of the policy store decide
// about it.
module AccessLayers {
  import opened Json
  import opened PolicyModel
  import opened PolicyMeaning
  import opened StableSort
  import TupleOrder
  import opened AccessDiff
  import opened AccessReport
  import opened AccessExact

  // ---------------------------------------------------------- the order

  const DIRECTIONS := [Loosening, Tightening, Neutral]

  const CATEGORIES := [ConnectionVisibility, MandatoryFilter, PurposeAccess, TableAccess, ColumnAccess, ColumnMasking, Guardrail, JoinGroup]

  ghost predicate At(x: Change, i: nat, k: nat) {
    i < |DIRECTIONS| && x.direction == DIRECTIONS[i] && k < |CATEGORIES| && x.category == CATEGORIES[k]
  }

  /** By direction, then connection, then category, then subject. */
  ghost predicate InOrder(x: Change, y: Change) {
    forall i, k, j, l :: At(x, i, k) && At(y, j, l) ==>
      && i <= j
      && (i == j ==> NameLe(x.connection, y.connection))
      && (i == j && x.connection == y.connection ==> k <= l)
      && (i == j && x.connection == y.connection && k == l ==> NameLe(Or(x.subject, ""), Or(y.subject, "")))
  }

  lemma PlacesAre(x: Change, i: nat, k: nat)
    ensures At(x, i, k) <==> DirectionRank(x.direction) == i && CategoryRank(x.category) == k
  {
  }

  lemma InOrderIs(x: Change, y: Change)
    requires ChangeLe(x, y)
    ensures InOrder(x, y)
  {
    TupleOrder.LeadingRank(ChangeKey(x), ChangeKey(y));
    forall i, k, j, l | At(x, i, k) && At(y, j, l)
      ensures i <= j
      ensures i == j ==> x.direction == y.direction
    {
      PlacesAre(x, i, k);
      PlacesAre(y, j, l);
    }
    if x.direction == y.direction {
      ChangeLeInOrder(x, y);
    }
  }

  // A report is in order, and what a cut leaves out comes last in that order.
  lemma ReportOrdered(active: Context, candidate: Context, who: Option<string>, fields: seq<string>, max: nat)
    ensures var changes := AccessReportOf(active, candidate, who, fields, max).changes;
            && (forall p, q :: 0 <= p < q < |changes| ==> InOrder(changes[p], changes[q]))
            && (forall x, y :: x in changes && Holds(y, active, candidate, who, fields) && y !in changes ==> InOrder(x, y))
  {
    var all := AllChanges(active, candidate, who, fields);
    var changes := Kept(all, max);
    ChangeLeIsTotalPreorder();
    SortSorts(all, ChangeLe);
    SortPermutes(all, ChangeLe);
    KeptAndDropped(all, max);
    forall p, q | 0 <= p < q < |changes| ensures InOrder(changes[p], changes[q]) {
      InOrderIs(changes[p], changes[q]);
    }
    forall x, y | x in changes && Holds(y, active, candidate, who, fields) && y !in changes ensures InOrder(x, y) {
      HoldsIff(y, active, candidate, who, fields);
      assert y in multiset(Kept(all, max)) + multiset(Dropped(all, max));
      InOrderIs(x, y);
    }
  }

  // ------------------------------------------------- what the layers decide

  /** The same policies are in force on every connection of either configuration. */
  ghost predicate SameInForce(s: Store, t: Store, ids: set<string>, who: Option<string>) {
    && s.principals == t.principals
    && forall c, p :: c in ids ==> (Governs(s, c, who, p) <==> Governs(t, c, who, p))
  }

  lemma {:induction false} FlatMapSame<T>(names: seq<T>, f: T -> seq<Change>, g: T -> seq<Change>)
    requires forall n :: n in names ==> f(n) == g(n)
    ensures FlatMap(names, f) == FlatMap(names, g)
  {
    if names != [] {
      FlatMapSame(names[..|names| - 1], f, g);
    }
  }

  lemma SameResolve(s: Store, t: Store, ids: set<string>, who: Option<string>, c: string)
    requires SameInForce(s, t, ids, who) && c in ids
    ensures Resolve(s, c, who) == Resolve(t, c, who)
  {
    ResolveIff(s, c, who, Resolve(s, c, who));
    ResolveIff(t, c, who, Resolve(s, c, who));
  }

  lemma {:induction false} NotesOverSame(notes: seq<Note>, ids: seq<string>, active: Context, other: Context, candidate: Context, who: Option<string>)
    requires other.registry == active.registry
    requires forall c :: c in ids ==> Resolve(active.policies, c, who) == Resolve(other.policies, c, who)
    ensures NotesOver(notes, ids, active, candidate, who) == NotesOver(notes, ids, other, candidate, who)
  {
    if ids != [] {
      NotesOverSame(notes, ids[..|ids| - 1], active, other, candidate, who);
    }
  }

  // Only the policies in force count: two active configurations with the same
  // ones give the same report, entry for entry and note for note.
  lemma OnlyInForceCounts(active: Context, other: Context, candidate: Context, who: Option<string>, fields: seq<string>, max: nat)
    requires other.registry == active.registry
    requires SameInForce(active.policies, other.policies, active.registry.Keys + candidate.registry.Keys, who)
    ensures AccessReportOf(active, candidate, who, fields, max) == AccessReportOf(other, candidate, who, fields, max)
  {
    var ids := active.registry.Keys + candidate.registry.Keys;
    var f, g := ByConnection(active, candidate, who, fields), ByConnection(other, candidate, who, fields);
    ListingLists(ids);
    forall c | c in ids
      ensures Resolve(active.policies, c, who) == Resolve(other.policies, c, who) && f(c) == g(c)
    {
      SameResolve(active.policies, other.policies, ids, who, c);
    }
    FlatMapSame(Listing(ids), f, g);
    NotesOverSame(Noted([], OverridesChanged, OverridesDiffer(active, candidate, who)), Listing(ids), active, other, candidate, who);
  }

  // So a default no connection falls back on does not matter to any caller.
  lemma UnusedDefault(active: Context, candidate: Context, who: Option<string>, fields: seq<string>, max: nat, other: Policy)
    requires active.registry.Keys + candidate.registry.Keys <= active.policies.overrides.Keys
    ensures var moved := active.(policies := active.policies.(default := other));
            AccessReportOf(active, candidate, who, fields, max) == AccessReportOf(moved, candidate, who, fields, max)
  {
    var moved := active.(policies := active.policies.(default := other));
    forall c, p | c in active.registry.Keys + candidate.registry.Keys
      ensures Governs(active.policies, c, who, p) <==> Governs(moved.policies, c, who, p)
    {
      EntryDecides(active.policies, c, who, other, p);
    }
    OnlyInForceCounts(active, moved, candidate, who, fields, max);
  }
}
