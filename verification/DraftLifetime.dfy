// What becomes of a saved draft, and what every reachable disk satisfies.
module DraftLifetime {
  import opened Json
  import opened DraftStore
  import opened DraftIsolation
  import StableSort

  // ------------------------------------------------- the life of a draft

  /** The directory is as its save left it. */
  ghost predicate Intact(d: Disk, id: string, m: Manifest, body: Option<Cipher>) {
    && id in d.manifests && d.manifests[id] == Good(m)
    && (if body.Some? then id in d.bundles && d.bundles[id] == body.value else id !in d.bundles)
  }

  predicate Deletes(op: Op, id: string, owner: string) {
    op.Delete? && op.id == id && op.who == owner
  }

  // A draft stays as it is until it expires or its owner deletes it; then its
  // directory is gone as a whole, or at least no longer accessible.
  lemma StepKeepsDraft(d: Disk, op: Op, key: string, id: string, m: Manifest, body: Option<Cipher>)
    requires Intact(d, id, m, body)
    requires op.Save? ==> op.id != id
    ensures var d' := Step(d, op, key).0;
            if (op.now < m.expiresAt && Deletes(op, id, m.owner)) || (m.expiresAt <= op.now && (op.Save? || op.List?))
            then id !in Dirs(d') else Intact(d', id, m, body)
  {
  }

  lemma StepKeepsGone(d: Disk, op: Op, key: string, id: string)
    requires id !in Dirs(d)
    requires op.Save? ==> op.id != id
    ensures id !in Dirs(Step(d, op, key).0)
  {
  }

  ghost predicate DeletedIn(ops: seq<Op>, id: string, owner: string) {
    exists i :: 0 <= i < |ops| && Deletes(ops[i], id, owner)
  }

  /** Either untouched, or gone because it was deleted or has expired. */
  ghost predicate Accounted(d: Disk, id: string, m: Manifest, body: Option<Cipher>, deleted: bool, t: int) {
    || (id !in Dirs(d) && (deleted || m.expiresAt <= t))
    || (Intact(d, id, m, body) && (deleted ==> m.expiresAt <= t))
  }

  lemma {:induction false} RunAccounts(d: Disk, ops: seq<Op>, key: string, id: string, m: Manifest,
                                       body: Option<Cipher>, deleted: bool, t: int, used: set<string>, end: int)
    requires Accounted(d, id, m, body, deleted, t)
    requires Monotone(ops, t) && FreshIds(ops, used) && id in used
    requires t <= end && (ops != [] ==> ops[|ops| - 1].now <= end)
    ensures Accounted(Run(d, ops, key), id, m, body, deleted || DeletedIn(ops, id, m.owner), end)
    decreases |ops|
  {
    if ops != [] {
      var op, rest := ops[0], ops[1..];
      if id in Dirs(d) {
        StepKeepsDraft(d, op, key, id, m, body);
      } else {
        StepKeepsGone(d, op, key, id);
      }
      var now' := deleted || Deletes(op, id, m.owner);
      if rest == [] {
        assert DeletedIn(ops, id, m.owner) <==> Deletes(op, id, m.owner);
        assert Run(d, ops, key) == Step(d, op, key).0;
      } else {
        MonotoneEnds(ops, t);
        RunAccounts(Step(d, op, key).0, rest, key, id, m, body, now', op.now, Used(op, used), end);
        DeletedInSplits(ops, id, m.owner);
      }
    }
  }

  lemma DeletedInSplits(ops: seq<Op>, id: string, owner: string)
    requires ops != []
    ensures DeletedIn(ops, id, owner) <==> Deletes(ops[0], id, owner) || DeletedIn(ops[1..], id, owner)
  {
    if DeletedIn(ops[1..], id, owner) {
      var i :| 0 <= i < |ops[1..]| && Deletes(ops[1..][i], id, owner);
      assert Deletes(ops[i + 1], id, owner);
    }
    if DeletedIn(ops, id, owner) {
      var i :| 0 <= i < |ops| && Deletes(ops[i], id, owner);
      if i > 0 {
        assert ops[1..][i - 1] == ops[i];
      }
    }
  }

  lemma {:induction false} MonotoneEnds(ops: seq<Op>, t: int)
    requires Monotone(ops, t) && ops != []
    ensures t <= ops[0].now <= ops[|ops| - 1].now
    decreases |ops|
  {
    if |ops| > 1 {
      MonotoneEnds(ops[1..], ops[0].now);
    }
  }

  /** What a save leaves behind in its directory. */
  function SavedBody(op: Op, key: string): Option<Cipher>
    requires op.Save?
  {
    if op.crash.NoCrash? then Some(Sealed(key, op.bundle)) else None
  }

  // The fate of a draft over every run that follows its save: a load finds the
  // saved bundle, and only its owner does, exactly until the owner deletes it or
  // it expires; a half-written draft is never found.
  lemma DraftFate(d: Disk, save: Op, ops: seq<Op>, reader: string, now: int, key: string)
    requires save.Save? && !save.crash.BeforeManifest? && !Step(d, save, key).1.Refused?
    requires FreshIds([save] + ops, Dirs(d)) && Monotone(ops, save.now)
    requires save.now <= now && (ops != [] ==> ops[|ops| - 1].now <= now)
    ensures var end := Run(Step(d, save, key).0, ops, key);
            Step(end, Load(reader, now, save.id), key).1 ==
            if && save.crash.NoCrash? && reader == save.who && now < save.now + save.retention
               && !DeletedIn(ops, save.id, save.who)
            then Loaded(save.bundle) else NotFound
  {
    var m, body := NewManifest(save), SavedBody(save, key);
    assert ([save] + ops)[1..] == ops;
    var d1 := Step(d, save, key).0;
    assert save.id !in d.bundles;
    assert Intact(d1, save.id, m, body);
    RunAccounts(d1, ops, key, save.id, m, body, false, save.now, Dirs(d) + {save.id}, now);
  }

  // Until then the draft is listed, even a half-written one that cannot be loaded.
  lemma DraftListed(d: Disk, save: Op, ops: seq<Op>, now: int, key: string)
    requires save.Save? && !save.crash.BeforeManifest? && !Step(d, save, key).1.Refused?
    requires FreshIds([save] + ops, Dirs(d)) && Monotone(ops, save.now)
    requires save.now <= now && (ops != [] ==> ops[|ops| - 1].now <= now)
    requires now < save.now + save.retention && !DeletedIn(ops, save.id, save.who)
    ensures var end := Run(Step(d, save, key).0, ops, key);
            SummaryOf(NewManifest(save)) in Step(end, List(save.who, now), key).1.summaries
  {
    var m, body := NewManifest(save), SavedBody(save, key);
    assert ([save] + ops)[1..] == ops;
    var d1 := Step(d, save, key).0;
    assert save.id !in d.bundles;
    assert Intact(d1, save.id, m, body);
    RunAccounts(d1, ops, key, save.id, m, body, false, save.now, Dirs(d) + {save.id}, now);
    var end := Run(d1, ops, key);
    assert save.id in Owned(Prune(end, now), save.who);
  }

  // --------------------------------------------------- reachable disks

  ghost predicate CapSaves(ops: seq<Op>, cap: nat) {
    forall i :: 0 <= i < |ops| && ops[i].Save? ==> ops[i].maxDrafts == cap
  }

  ghost predicate WithinCap(d: Disk, cap: nat) {
    forall who :: |Owned(d, who)| <= cap
  }

  predicate NoOrphanBundle(d: Disk) {
    d.bundles.Keys <= d.manifests.Keys
  }

  lemma OwnedShrinks(d: Disk, d': Disk, who: string)
    requires d'.manifests.Keys <= d.manifests.Keys
    requires forall id :: id in d'.manifests ==> d'.manifests[id] == d.manifests[id]
    ensures |Owned(d', who)| <= |Owned(d, who)|
  {
    StableSort.SubsetSmaller(Owned(d', who), Owned(d, who));
  }

  lemma StepWithinCap(d: Disk, op: Op, key: string, cap: nat, who: string)
    requires |Owned(d, who)| <= cap && (op.Save? ==> op.maxDrafts == cap)
    ensures |Owned(Step(d, op, key).0, who)| <= cap
  {
    var d' := Step(d, op, key).0;
    if op.Save? {
      var p := Prune(d, op.now);
      OwnedShrinks(d, p, who);
      if d' != p {
        assert d'.manifests == p.manifests[op.id := Good(NewManifest(op))];
        if who == op.who {
          assert Owned(d', who) == Owned(p, who) + {op.id};
        } else {
          StableSort.SubsetSmaller(Owned(d', who), Owned(p, who));
        }
      }
    } else {
      OwnedShrinks(d, d', who);
    }
  }

  // In every reachable state, crashes inside a save included: every bundle has a
  // manifest, and under a fixed cap no owner holds more drafts than it allows.
  lemma {:induction false} ReachableDisk(d: Disk, ops: seq<Op>, key: string, cap: nat)
    requires NoOrphanBundle(d) && WithinCap(d, cap) && CapSaves(ops, cap)
    ensures NoOrphanBundle(Run(d, ops, key)) && WithinCap(Run(d, ops, key), cap)
    decreases |ops|
  {
    if ops != [] {
      var d' := Step(d, ops[0], key).0;
      forall who
        ensures |Owned(d', who)| <= cap
      {
        StepWithinCap(d, ops[0], key, cap, who);
      }
      ReachableDisk(d', ops[1..], key, cap);
    }
  }
}
