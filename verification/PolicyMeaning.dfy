// Which policy governs a connection, layer by layer, and what it permits, both
// told without the functions that compute it.
module PolicyMeaning {
  import opened Json
  import opened PolicyModel

  // -------------------------------------------------------------- layers

  ghost predicate Takes<T>(chosen: Option<T>, under: T, r: T) {
    (chosen.Some? ==> r == chosen.value) && (chosen.None? ==> r == under)
  }

  ghost predicate TakesGuards(chosen: map<string, Guard>, under: map<string, Guard>, r: map<string, Guard>) {
    forall f ::
      && (f in r <==> f in chosen || f in under)
      && (f in chosen ==> f in r && r[f] == chosen[f])
      && (f in under && f !in chosen ==> f in r && r[f] == under[f])
  }

  /** Each field is the patch's where it sets one, and the layer's below elsewhere. */
  ghost predicate Patched(p: Policy, under: Policy, patch: Patch) {
    && Takes(patch.enabled, under.enabled, p.enabled)
    && Takes(patch.allowedTables, under.allowedTables, p.allowedTables)
    && Takes(patch.deniedTables, under.deniedTables, p.deniedTables)
    && Takes(patch.allowedColumns, under.allowedColumns, p.allowedColumns)
    && Takes(patch.deniedColumns, under.deniedColumns, p.deniedColumns)
    && Takes(patch.masks, under.masks, p.masks)
    && Takes(patch.filters, under.filters, p.filters)
    && Takes(patch.explicitOnly, under.explicitOnly, p.explicitOnly)
    && TakesGuards(patch.guards, under.guards, p.guards)
    && Takes(patch.sensitivities, under.sensitivities, p.sensitivities)
    && Takes(patch.purposes, under.purposes, p.purposes)
    && Takes(patch.purposePolicies, under.purposePolicies, p.purposePolicies)
    && Takes(patch.joinGroup, under.joinGroup, p.joinGroup)
    && Takes(patch.writes, under.writes, p.writes)
  }

  /** The connection's own entry, and the default only without one. */
  predicate Entered(s: Store, c: string, p: Policy) {
    (c in s.overrides ==> p == s.overrides[c]) && (c !in s.overrides ==> p == s.default)
  }

  /** The patch for this caller on this connection: the one for the connection,
      or else the one for all connections. */
  predicate Applies(s: Store, c: string, who: Option<string>, patch: Patch) {
    && who.Some? && who.value in s.principals
    && var per := s.principals[who.value];
       (c in per && patch == per[c]) || (c !in per && "*" in per && patch == per["*"])
  }

  ghost predicate Unpatched(s: Store, c: string, who: Option<string>) {
    forall patch :: !Applies(s, c, who, patch)
  }

  /** p is the policy in force. */
  ghost predicate Governs(s: Store, c: string, who: Option<string>, p: Policy) {
    exists under :: Entered(s, c, under) &&
      ((Unpatched(s, c, who) && p == under) || (exists patch :: Applies(s, c, who, patch) && Patched(p, under, patch)))
  }

  lemma TakesGuardsIff(chosen: map<string, Guard>, under: map<string, Guard>, r: map<string, Guard>)
    ensures TakesGuards(chosen, under, r) <==> r == under + chosen
  {
    var q := under + chosen;
    if TakesGuards(chosen, under, r) {
      forall f ensures (f in r <==> f in q) && (f in q ==> r[f] == q[f]) {
      }
      assert r == q;
    }
  }

  lemma ApplyIff(under: Policy, patch: Patch, p: Policy)
    ensures Patched(p, under, patch) <==> p == Apply(under, patch)
  {
    TakesGuardsIff(patch.guards, under.guards, p.guards);
  }

  // The store hands out the policy in force, and there is one.
  lemma ResolveIff(s: Store, c: string, who: Option<string>, p: Policy)
    ensures Governs(s, c, who, p) <==> p == Resolve(s, c, who)
  {
    var under := if c in s.overrides then s.overrides[c] else s.default;
    assert Entered(s, c, under);
    if who.Some? && who.value in s.principals {
      var per := s.principals[who.value];
      if c in per {
        assert Applies(s, c, who, per[c]);
        ApplyIff(under, per[c], p);
      } else if "*" in per {
        assert Applies(s, c, who, per["*"]);
        ApplyIff(under, per["*"], p);
      }
    }
  }

  // With an entry for the connection the default does not matter, whoever asks;
  // without one the default is what counts.
  lemma EntryDecides(s: Store, c: string, who: Option<string>, other: Policy, p: Policy)
    ensures c in s.overrides ==> (Governs(s.(default := other), c, who, p) <==> Governs(s, c, who, p))
    ensures c in s.overrides && Unpatched(s, c, who) ==> (Governs(s, c, who, p) <==> p == s.overrides[c])
    ensures c !in s.overrides && Unpatched(s, c, who) ==> (Governs(s, c, who, p) <==> p == s.default)
  {
    ResolveIff(s, c, who, p);
    ResolveIff(s.(default := other), c, who, p);
    if Unpatched(s, c, who) && who.Some? && who.value in s.principals {
      var per := s.principals[who.value];
      assert c !in per by { if c in per { assert Applies(s, c, who, per[c]); } }
      assert "*" !in per by { if "*" in per { assert Applies(s, c, who, per["*"]); } }
    }
  }

  // A patch for the connection makes the one for all connections irrelevant; the
  // latter counts where there is none for the connection.
  lemma PatchDecides(s: Store, c: string, subject: string, p: Policy)
    requires subject in s.principals
    ensures var per := s.principals[subject];
            var under := if c in s.overrides then s.overrides[c] else s.default;
            && (c in per ==> (Governs(s, c, Some(subject), p) <==> Patched(p, under, per[c])))
            && (c !in per && "*" in per ==> (Governs(s, c, Some(subject), p) <==> Patched(p, under, per["*"])))
  {
    var per := s.principals[subject];
    var under := if c in s.overrides then s.overrides[c] else s.default;
    ResolveIff(s, c, Some(subject), p);
    if c in per {
      ApplyIff(under, per[c], p);
    } else if "*" in per {
      ApplyIff(under, per["*"], p);
    }
  }

  // ------------------------------------------------------- what it permits

  predicate MayRead(p: Policy, t: string) {
    t !in p.deniedTables && (t in p.allowedTables || (p.allowedTables == {} && !p.explicitOnly))
  }

  predicate Under(m: map<string, set<string>>, key: string, col: string) {
    key in m && col in m[key]
  }

  /** Not denied for the table or for all tables; on the table's own list if it has
      one, else on the list for all tables, else unless lists are required. */
  predicate MaySee(p: Policy, t: string, col: string) {
    && !Under(p.deniedColumns, t, col) && !Under(p.deniedColumns, "*", col)
    && (|| Under(p.allowedColumns, t, col)
        || (t !in p.allowedColumns && Under(p.allowedColumns, "*", col))
        || (t !in p.allowedColumns && "*" !in p.allowedColumns && !p.explicitOnly))
  }

  /** The first mask listed for the column. */
  ghost predicate FirstFor(masks: seq<Mask>, col: string, m: Option<Mask>) {
    || (m.None? && forall k :: k in masks ==> k.column != col)
    || (m.Some? && exists i :: 0 <= i < |masks| && masks[i] == m.value && m.value.column == col
                               && forall j :: 0 <= j < i ==> masks[j].column != col)
  }

  ghost predicate FirstUnder(p: Policy, key: string, col: string, m: Option<Mask>) {
    (key in p.masks ==> FirstFor(p.masks[key], col, m)) && (key !in p.masks ==> m == None)
  }

  /** A table's own mask for the column, else the one for all tables. */
  ghost predicate Masked(p: Policy, t: string, col: string, m: Option<Mask>) {
    || (m.Some? && FirstUnder(p, t, col, m))
    || (FirstUnder(p, t, col, None) && FirstUnder(p, "*", col, m))
  }

  predicate On(f: RowFilter, t: string, col: string) {
    f.table == t && f.column == col
  }

  ghost predicate LastAt(filters: seq<RowFilter>, t: string, col: string, f: RowFilter, i: nat) {
    i < |filters| && filters[i] == f && On(f, t, col) && forall j :: i < j < |filters| ==> !On(filters[j], t, col)
  }

  /** The last row filter listed for the column. */
  ghost predicate LastOn(filters: seq<RowFilter>, t: string, col: string, f: Option<RowFilter>) {
    || (f.None? && forall g :: g in filters ==> !On(g, t, col))
    || (f.Some? && exists i: nat :: LastAt(filters, t, col, f.value, i))
  }

  lemma MayReadIff(p: Policy, t: string)
    ensures TableAllowed(p, t) <==> MayRead(p, t)
  {
  }

  lemma MaySeeIff(p: Policy, t: string, col: string)
    ensures ColumnAllowed(p, t, col) <==> MaySee(p, t, col)
  {
  }

  lemma {:induction false} FirstIff(masks: seq<Mask>, col: string, m: Option<Mask>)
    ensures FirstMask(masks, col) == m <==> FirstFor(masks, col, m)
  {
    if masks != [] {
      var rest := masks[1..];
      assert masks == [masks[0]] + rest;
      if masks[0].column != col {
        FirstIff(rest, col, m);
        if m.Some? && FirstFor(rest, col, m) {
          var i :| 0 <= i < |rest| && rest[i] == m.value && forall j :: 0 <= j < i ==> rest[j].column != col;
          assert masks[i + 1] == m.value;
        }
        if m.Some? && FirstFor(masks, col, m) {
          var i :| 0 <= i < |masks| && masks[i] == m.value && m.value.column == col && forall j :: 0 <= j < i ==> masks[j].column != col;
          assert rest[i - 1] == m.value;
        }
      }
    }
  }

  lemma MaskInIff(p: Policy, key: string, col: string, m: Option<Mask>)
    ensures MaskIn(p, key, col) == m <==> FirstUnder(p, key, col, m)
  {
    if key in p.masks {
      FirstIff(p.masks[key], col, m);
    }
  }

  lemma MaskedIff(p: Policy, t: string, col: string, m: Option<Mask>)
    ensures ColumnMask(p, t, col) == m <==> Masked(p, t, col, m)
  {
    MaskInIff(p, t, col, m);
    MaskInIff(p, t, col, None);
    MaskInIff(p, "*", col, m);
  }

  lemma {:induction false} LastIff(filters: seq<RowFilter>, t: string, col: string, f: Option<RowFilter>)
    ensures LastFilter(filters, t, col) == f <==> LastOn(filters, t, col, f)
  {
    if filters != [] {
      var n := |filters| - 1;
      if On(filters[n], t, col) {
        LastHere(filters, t, col, f);
      } else {
        LastIff(filters[..n], t, col, f);
        LastBefore(filters, t, col, f);
      }
    }
  }

  lemma LastHere(filters: seq<RowFilter>, t: string, col: string, f: Option<RowFilter>)
    requires filters != [] && On(filters[|filters| - 1], t, col)
    ensures LastOn(filters, t, col, f) <==> f == Some(filters[|filters| - 1])
  {
    var n := |filters| - 1;
    assert filters[n] in filters;
    assert LastAt(filters, t, col, filters[n], n);
  }

  lemma LastBefore(filters: seq<RowFilter>, t: string, col: string, f: Option<RowFilter>)
    requires filters != [] && !On(filters[|filters| - 1], t, col)
    ensures LastOn(filters, t, col, f) <==> LastOn(filters[..|filters| - 1], t, col, f)
  {
    var n := |filters| - 1;
    var front := filters[..n];
    assert filters == front + [filters[n]];
    if f.Some? {
      forall i: nat ensures LastAt(filters, t, col, f.value, i) <==> LastAt(front, t, col, f.value, i) {
      }
    }
  }
}
