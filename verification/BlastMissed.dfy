// Principals that no page of the blast-radius report shows: their own report says
// nothing, while what they may read can still change.
module BlastMissed {
  import opened Json
  import opened PolicyModel
  import opened StableSort
  import opened Paging
  import opened AccessDiff
  import opened AccessCompleteness
  import opened AccessEnforcement
  import opened AccessReport
  import opened AccessCoverage
  import opened BlastRadius
  import opened BlastRanking
  import opened BlastGaps

  // An overridden principal is shown by no request exactly when its own report
  // lists nothing and notes nothing.
  lemma NeverShownIff(q: Request, size: nat, p: string)
    requires size >= 1 && p in Overridden(q)
    ensures (forall k: nat :: !ShownAt(q, size, k, p)) <==> Quiet(q.active, q.candidate, Some(p), q.fields, q.perPrincipal)
  {
    if Quiet(q.active, q.candidate, Some(p), q.fields, q.perPrincipal) {
      forall k: nat ensures !ShownAt(q, size, k, p) {
        QuietNotShown(q, size, k, p);
      }
    } else {
      ShownByOne(q, size, p);
    }
  }

  lemma QuietNotShown(q: Request, size: nat, k: nat, p: string)
    requires Quiet(q.active, q.candidate, Some(p), q.fields, q.perPrincipal)
    ensures !ShownAt(q, size, k, p)
  {
    var at := Cursor(|Configured(q)|, size, k);
    if at.Some? {
      ImpactListed(q, Page(Configured(q), at.value, size), p);
    }
  }

  ghost function Was(q: Request, c: string, p: string): Policy {
    Resolve(q.active.policies, c, Some(p))
  }

  ghost function Becomes(q: Request, c: string, p: string): Policy {
    Resolve(q.candidate.policies, c, Some(p))
  }

  /** What stays the same on a connection for a principal no request shows. */
  ghost predicate StaysFor(q: Request, c: string, p: string, t: string, col: string)
    requires c in q.active.registry && c in q.candidate.registry
  {
    && TableAllowed(Was(q, c, p), t) == TableAllowed(Becomes(q, c, p), t)
    && ColumnMask(Was(q, c, p), t, col) == ColumnMask(Becomes(q, c, p), t, col)
    && LastRule(Was(q, c, p), t, col) == LastRule(Becomes(q, c, p), t, col)
    && SameRest(q.active.registry[c], Was(q, c, p), q.candidate.registry[c], Becomes(q, c, p), q.fields)
  }

  /** The two gaps of the column diff. */
  ghost predicate ColumnGap(q: Request, c: string, p: string, t: string)
    requires c in q.active.registry && c in q.candidate.registry
  {
    || OpenColumns(Was(q, c, p), t) != OpenColumns(Becomes(q, c, p), t)
    || (&& t !in NamedTables(q.active.registry[c], Was(q, c, p)) + NamedTables(q.candidate.registry[c], Becomes(q, c, p))
        && NamedColumnChanges(Was(q, c, p), Becomes(q, c, p), t))
  }

  // What can still change, unseen, for an overridden principal that no request
  // shows: columns of a table exactly in the two gaps, enforced row filters
  // exactly when hidden ones differ, joins exactly when the policy moves the
  // group; and writes, which nothing compares.
  lemma MissedExactly(q: Request, size: nat, p: string, c: string, t: string, col: string)
    requires size >= 1 && p in Overridden(q) && EXPLICIT in q.fields && (forall k: nat :: !ShownAt(q, size, k, p))
    requires BothVisible(c, q.active, q.candidate, Some(p))
    ensures StaysFor(q, c, p, t, col)
    ensures TableAllowed(Was(q, c, p), t) ==> (ColumnsDiffer(Was(q, c, p), Becomes(q, c, p), t) <==> ColumnGap(q, c, p, t))
    ensures Enforced(Was(q, c, p), t, col) != Enforced(Becomes(q, c, p), t, col) <==>
            Shadowed(Was(q, c, p), t, col) != Shadowed(Becomes(q, c, p), t, col)
    ensures EffectiveGroup(q.active.registry[c], Was(q, c, p)) != EffectiveGroup(q.candidate.registry[c], Becomes(q, c, p)) <==>
            GroupMoves(q.active.registry[c].joinGroup, Was(q, c, p), Becomes(q, c, p))
  {
    NeverShownIff(q, size, p);
    QuietInside(q.active, q.candidate, Some(p), q.fields, q.perPrincipal, c, t, col);
    QuietRest(q.active, q.candidate, Some(p), q.fields, q.perPrincipal, c);
    if TableAllowed(Was(q, c, p), t) {
      QuietColumnsIff(q.active, q.candidate, Some(p), q.fields, q.perPrincipal, c, t);
    }
  }

  /** One connection, on which a principal's column allow-list is dropped. */
  ghost predicate OpensColumns(q: Request, p: string, c: string, pr: Profile, t: string, x: string) {
    && p in Overridden(q) && pr.enabled && q.active.registry == q.candidate.registry == map[c := pr]
    && Was(q, c, p).enabled && Was(q, c, p).masks == map[]
    && DropsColumnList(Was(q, c, p), Becomes(q, c, p), t, x)
  }

  lemma OpenedUnreported(q: Request, p: string, c: string, pr: Profile, t: string, x: string)
    requires OpensColumns(q, p, c, pr, t, x)
    ensures ChangesOf(q, Some(p)) == []
  {
    var f := ByConnection(q.active, q.candidate, Some(p), q.fields);
    forall d ensures f(d) == [] {
      if d == c {
        SharedIs(c, q.active, q.candidate, Some(p), q.fields, pr, pr);
        OpenedShared(c, pr, Was(q, c, p), Becomes(q, c, p), q.fields, t, x);
      }
    }
    FlatMapEmpty(Listing(q.active.registry.Keys + q.candidate.registry.Keys), f);
  }

  lemma OpenedShared(c: string, pr: Profile, b: Policy, a: Policy, fields: seq<string>, t: string, x: string)
    requires DropsColumnList(b, a, t, x) && b.enabled && pr.enabled
    ensures SharedChanges(c, pr, b, pr, a, fields) == []
  {
    DroppedListUnreported(c, pr, b, a, fields, t, x, x + "x");
    VisibleShared(c, pr, b, pr, a, fields);
  }

  lemma OpenedUnnoted(q: Request, p: string, c: string, pr: Profile, t: string, x: string)
    requires OpensColumns(q, p, c, pr, t, x)
    ensures AllNotes(q.active, q.candidate, Some(p)) == []
  {
    var notes := AllNotes(q.active, q.candidate, Some(p));
    DroppedListOpens(Was(q, c, p), Becomes(q, c, p), t, x, x + "x");
    if notes != [] {
      NotesExact(q.active, q.candidate, Some(p), notes[0]);
    }
  }

  // How a principal is missed: its column allow-list is dropped, every other
  // column of the table opens up, and no request ever shows it.
  lemma MissedPrincipal(q: Request, p: string, c: string, pr: Profile, t: string, x: string, col: string, size: nat, k: nat)
    requires OpensColumns(q, p, c, pr, t, x) && col != x
    ensures !ShownAt(q, size, k, p)
    ensures !ColumnAllowed(Was(q, c, p), t, col) && ColumnAllowed(Becomes(q, c, p), t, col)
  {
    OpenedUnreported(q, p, c, pr, t, x);
    OpenedUnnoted(q, p, c, pr, t, x);
    NothingIsQuiet(q, p);
    QuietNotShown(q, size, k, p);
    DroppedListOpens(Was(q, c, p), Becomes(q, c, p), t, x, col);
  }

  lemma NothingIsQuiet(q: Request, p: string)
    requires ChangesOf(q, Some(p)) == [] && AllNotes(q.active, q.candidate, Some(p)) == []
    ensures Quiet(q.active, q.candidate, Some(p), q.fields, q.perPrincipal)
  {
    assert Sort<Change>([], ChangeLe) == [];
  }

  function Opened(p: string, c: string, pr: Profile, t: string, x: string, fields: seq<string>): Request {
    Request(Side(map[c := pr], p, map[c := NO_PATCH.(allowedColumns := Some(map[t := {x}]))]),
            Side(map[c := pr], p, map[c := NO_PATCH]), fields, 1, 1)
  }

  lemma MissedExists(p: string, c: string, pr: Profile, t: string, x: string, fields: seq<string>)
    requires pr.enabled && t != WILDCARD
    ensures OpensColumns(Opened(p, c, pr, t, x, fields), p, c, pr, t, x)
  {
    assert OPEN.guards + map[] == map[];
  }
}
