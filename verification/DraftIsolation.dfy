// Whole runs of the draft store: no principal's answers depend on another's
// operations; what a saved draft can still be used for; the per-owner cap.
module DraftIsolation {
  import opened Json
  import opened DraftStore

  // --------------------------------------------- a store of one's own

  /** A draft as its owner sees it. */
  datatype Draft = Draft(m: Manifest, body: Option<Cipher>)

  type Private = map<string, Draft>

  function Fresh(v: Private, now: int): Private {
    map id | id in v && v[id].m.expiresAt > now :: v[id]
  }

  /** The reference: a store that holds the drafts of one principal only. */
  function PrivateStep(v: Private, op: Op, key: string): (Private, Result) {
    var f := Fresh(v, op.now);
    match op
    case Save(_, _, id, bundle, _, _, maxDrafts, crash) =>
      if |f| >= maxDrafts then (f, Refused(|f|))
      else if crash.BeforeManifest? then (f, Lost)
      else
        var m := NewManifest(op);
        if crash.BetweenWrites? then (f[id := Draft(m, None)], Lost)
        else (f[id := Draft(m, Some(Sealed(key, bundle)))], Saved(SummaryOf(m)))
    case List(_, _) => (f, Listed(set id | id in f :: SummaryOf(f[id].m)))
    case Load(_, _, id) =>
      (f,
       if id in f && f[id].body.Some? && Open(f[id].body.value, key).Some?
       then Loaded(Open(f[id].body.value, key).value) else NotFound)
    case Delete(_, _, id) =>
      if id in f then (f - {id}, Deleted) else (f, NotFound)
  }

  function PrivateAnswers(v: Private, ops: seq<Op>, key: string): seq<Result>
    decreases |ops|
  {
    if ops == [] then []
    else
      var s := PrivateStep(v, ops[0], key);
      [s.1] + PrivateAnswers(s.0, ops[1..], key)
  }

  /** What is left of the shared disk for `who` at time `now`. */
  function View(d: Disk, who: string, now: int): Private {
    map id | id in d.manifests && Accessible(d, id, who, now) ::
      Draft(d.manifests[id].m, if id in d.bundles then Some(d.bundles[id]) else None)
  }

  // ------------------------------------------------- well-behaved runs

  /** The clock never runs backwards. */
  predicate Monotone(ops: seq<Op>, t: int)
    decreases |ops|
  {
    ops != [] ==> t <= ops[0].now && Monotone(ops[1..], ops[0].now)
  }

  function Dirs(d: Disk): set<string> {
    d.manifests.Keys + d.bundles.Keys
  }

  /** Every save draws an id no directory has ever had. */
  predicate FreshIds(ops: seq<Op>, used: set<string>)
    decreases |ops|
  {
    ops != [] ==>
      if ops[0].Save? then ops[0].id !in used && FreshIds(ops[1..], used + {ops[0].id})
      else FreshIds(ops[1..], used)
  }

  function Used(op: Op, used: set<string>): set<string> {
    if op.Save? then used + {op.id} else used
  }

  function Mine(ops: seq<Op>, who: string): seq<Op>
    decreases |ops|
  {
    if ops == [] then []
    else if ops[0].who == who then [ops[0]] + Mine(ops[1..], who)
    else Mine(ops[1..], who)
  }

  lemma StepDirs(d: Disk, op: Op, key: string, used: set<string>)
    requires Dirs(d) <= used
    ensures Dirs(Step(d, op, key).0) <= Used(op, used)
  {
  }

  // ------------------------------------------------------ simulation

  // Pruning only removes drafts nobody could see any more.
  lemma PruneInvisible(d: Disk, who: string, now: int)
    ensures View(Prune(d, now), who, now) == View(d, who, now)
  {
  }

  lemma ViewAges(d: Disk, who: string, t: int, now: int)
    requires t <= now
    ensures View(d, who, now) == Fresh(View(d, who, t), now)
  {
  }

  // Another principal's operation does not touch the view.
  lemma OtherStepInvisible(d: Disk, op: Op, who: string, key: string)
    requires op.who != who
    requires op.Save? ==> op.id !in Dirs(d)
    ensures View(Step(d, op, key).0, who, op.now) == View(d, who, op.now)
  {
    PruneInvisible(d, who, op.now);
  }

  // What remains after pruning is exactly what the owner can see.
  lemma PrunedOwned(d: Disk, who: string, now: int)
    ensures Owned(Prune(d, now), who) == View(d, who, now).Keys
  {
  }

  ghost predicate ActsPrivately(d: Disk, v: Private, op: Op, key: string) {
    var (v', r) := PrivateStep(v, op, key);
    Step(d, op, key).1 == r && View(Step(d, op, key).0, op.who, op.now) == Fresh(v', op.now)
  }

  // A new directory shows up in its owner's view as soon as its manifest does.
  lemma NewDirectory(p: Disk, id: string, m: Manifest, body: Option<Cipher>, now: int)
    requires id !in Dirs(p)
    ensures var q := Disk(p.manifests[id := Good(m)], if body.Some? then p.bundles[id := body.value] else p.bundles);
            View(q, m.owner, now) == Fresh(View(p, m.owner, now)[id := Draft(m, body)], now)
  {
    var q := Disk(p.manifests[id := Good(m)], if body.Some? then p.bundles[id := body.value] else p.bundles);
    var l, r := View(q, m.owner, now), Fresh(View(p, m.owner, now)[id := Draft(m, body)], now);
    assert l.Keys == r.Keys;
  }

  lemma OwnWritePrivate(p: Disk, f: Private, op: Op, key: string)
    requires op.Save? && op.id !in Dirs(p)
    requires View(p, op.who, op.now) == f == Fresh(f, op.now) && |Owned(p, op.who)| == |f|
    ensures var (v, r) := PrivateStep(f, op, key);
            Write(p, op, key).1 == r && View(Write(p, op, key).0, op.who, op.now) == Fresh(v, op.now)
  {
    NewDirectory(p, op.id, NewManifest(op), None, op.now);
    NewDirectory(p, op.id, NewManifest(op), Some(Sealed(key, op.bundle)), op.now);
  }

  lemma OwnSavePrivate(d: Disk, op: Op, key: string)
    requires op.Save? && op.id !in Dirs(d)
    ensures ActsPrivately(d, View(d, op.who, op.now), op, key)
  {
    var v, p := View(d, op.who, op.now), Prune(d, op.now);
    assert Fresh(v, op.now) == v;
    PrunedOwned(d, op.who, op.now);
    PruneInvisible(d, op.who, op.now);
    assert |v| == |v.Keys| == |Owned(p, op.who)|;
    OwnWritePrivate(p, v, op, key);
  }

  lemma OwnListPrivate(d: Disk, op: Op, key: string)
    requires op.List?
    ensures ActsPrivately(d, View(d, op.who, op.now), op, key)
  {
    var v := View(d, op.who, op.now);
    assert Fresh(v, op.now) == v;
    PrunedOwned(d, op.who, op.now);
    PruneInvisible(d, op.who, op.now);
  }

  lemma OwnLookupPrivate(d: Disk, op: Op, key: string)
    requires op.Load? || op.Delete?
    ensures ActsPrivately(d, View(d, op.who, op.now), op, key)
  {
    var v := View(d, op.who, op.now);
    assert Fresh(v, op.now) == v;
    if op.Delete? && op.id in v {
      assert View(RemoveDir(d, op.id), op.who, op.now) == v - {op.id};
    }
  }

  lemma FreshTwice(v: Private, t: int, now: int)
    requires t <= now
    ensures Fresh(Fresh(v, t), now) == Fresh(v, now)
  {
  }

  // An own operation answers, and changes the view, as the private store does.
  lemma OwnStepPrivate(d: Disk, op: Op, key: string, v: Private, t: int)
    requires t <= op.now && View(d, op.who, t) == Fresh(v, t)
    requires op.Save? ==> op.id !in Dirs(d)
    ensures ActsPrivately(d, v, op, key)
  {
    ViewAges(d, op.who, t, op.now);
    FreshTwice(v, t, op.now);
    FreshTwice(v, op.now, op.now);
    assert PrivateStep(View(d, op.who, op.now), op, key) == PrivateStep(v, op, key);
    match op
    case Save(_, _, _, _, _, _, _, _) => OwnSavePrivate(d, op, key);
    case List(_, _) => OwnListPrivate(d, op, key);
    case _ => OwnLookupPrivate(d, op, key);
  }

  // In any run, each principal's answers are those of a store of its own.
  lemma {:induction false} AnswersArePrivate(d: Disk, ops: seq<Op>, who: string, key: string, v: Private, t: int, used: set<string>)
    requires Monotone(ops, t) && FreshIds(ops, used) && Dirs(d) <= used
    requires View(d, who, t) == Fresh(v, t)
    ensures Answers(d, ops, who, key) == PrivateAnswers(v, Mine(ops, who), key)
    decreases |ops|
  {
    if ops != [] {
      var op, rest := ops[0], ops[1..];
      var d' := Step(d, op, key).0;
      StepDirs(d, op, key, used);
      if op.who == who {
        OwnStepPrivate(d, op, key, v, t);
        var v' := PrivateStep(v, op, key).0;
        AnswersArePrivate(d', rest, who, key, v', op.now, Used(op, used));
        assert Mine(ops, who)[0] == op && Mine(ops, who)[1..] == Mine(rest, who);
      } else {
        OtherStepInvisible(d, op, who, key);
        ViewAges(d, who, t, op.now);
        FreshTwice(v, t, op.now);
        AnswersArePrivate(d', rest, who, key, v, op.now, Used(op, used));
      }
    }
  }

  lemma {:induction false} MineIsMine(ops: seq<Op>, who: string, t: int, used: set<string>)
    requires Monotone(ops, t) && FreshIds(ops, used)
    ensures Mine(Mine(ops, who), who) == Mine(ops, who)
    ensures Monotone(Mine(ops, who), t) && FreshIds(Mine(ops, who), used)
    decreases |ops|
  {
    if ops != [] {
      var op, rest, mine := ops[0], ops[1..], Mine(ops[1..], who);
      MineIsMine(rest, who, op.now, Used(op, used));
      if op.who == who {
        assert Mine(ops, who)[0] == op && Mine(ops, who)[1..] == mine;
      } else {
        MonotoneEarlier(mine, t, op.now);
        FreshIdsFewer(mine, used, Used(op, used));
      }
    }
  }

  lemma MonotoneEarlier(ops: seq<Op>, t: int, later: int)
    requires t <= later && Monotone(ops, later)
    ensures Monotone(ops, t)
  {
  }

  lemma {:induction false} FreshIdsFewer(ops: seq<Op>, used: set<string>, more: set<string>)
    requires used <= more && FreshIds(ops, more)
    ensures FreshIds(ops, used)
    decreases |ops|
  {
    if ops != [] {
      FreshIdsFewer(ops[1..], Used(ops[0], used), Used(ops[0], more));
    }
  }

  // Non-interference: deleting every other principal's operation from a run
  // leaves each answer `who` gets unchanged, whatever drafts and unreadable manifests
  // are on disk at the start.
  lemma NonInterference(d: Disk, ops: seq<Op>, who: string, key: string, t: int)
    requires Monotone(ops, t) && FreshIds(ops, Dirs(d))
    ensures Answers(d, ops, who, key) == Answers(d, Mine(ops, who), who, key)
  {
    var v := View(d, who, t);
    assert Fresh(v, t) == v;
    AnswersArePrivate(d, ops, who, key, v, t, Dirs(d));
    MineIsMine(ops, who, t, Dirs(d));
    AnswersArePrivate(d, Mine(ops, who), who, key, v, t, Dirs(d));
  }

  // ------------------------------------------------- when a clock is ahead

  /** From time t on, `who` sees the same drafts on both disks. */
  ghost predicate SameFrom(d: Disk, e: Disk, who: string, t: int) {
    forall now :: t <= now ==> View(d, who, now) == View(e, who, now)
  }

  /** A draft of `who` runs out after t, but not after the clock of the pruning operation. */
  ghost predicate ExpiresBetween(d: Disk, who: string, t: int, clock: int) {
    exists id :: id in Owned(d, who) && t < d.manifests[id].m.expiresAt <= clock
  }

  predicate Prunes(op: Op) {
    op.Save? || op.List?
  }

  lemma PruneShowsIff(d: Disk, who: string, clock: int, t: int)
    ensures SameFrom(Prune(d, clock), d, who, t) <==> !ExpiresBetween(d, who, t, clock)
  {
    var p := Prune(d, clock);
    if id :| id in Owned(d, who) && t < d.manifests[id].m.expiresAt <= clock {
      var now := d.manifests[id].m.expiresAt - 1;
      assert id in View(d, who, now) && id !in View(p, who, now);
    } else {
      forall now | t <= now ensures View(p, who, now) == View(d, who, now) {
        forall id | id in View(d, who, now) ensures id in View(p, who, now) {
          assert id in Owned(d, who);
        }
      }
    }
  }

  lemma OtherWriteInvisible(p: Disk, op: Op, who: string, key: string, now: int)
    requires op.Save? && op.who != who && op.id !in Dirs(p)
    ensures View(Write(p, op, key).0, who, now) == View(p, who, now)
  {
  }

  // Without any assumption on clocks: another principal's operation hides
  // nothing from `who` from time t on exactly when it does not prune, or no draft
  // of `who` expires after t and not after that operation's clock.
  lemma OtherStepInvisibleIff(d: Disk, op: Op, who: string, key: string, t: int)
    requires op.who != who && (op.Save? ==> op.id !in Dirs(d))
    ensures SameFrom(Step(d, op, key).0, d, who, t) <==> !Prunes(op) || !ExpiresBetween(d, who, t, op.now)
  {
    var e := Step(d, op, key).0;
    if Prunes(op) {
      var p := Prune(d, op.now);
      PruneShowsIff(d, who, op.now, t);
      forall now ensures View(e, who, now) == View(p, who, now) {
        if op.Save? {
          OtherWriteInvisible(p, op, who, key, now);
        }
      }
    } else {
      forall now ensures View(e, who, now) == View(d, who, now) {
      }
    }
  }

  // The clock condition is needed: a listing by someone whose clock runs ahead
  // prunes a draft its owner could still have loaded.
  lemma SkewedClockInterferes(alice: string, bob: string, id: string, bundle: Bundle, key: string)
    requires alice != bob
    ensures var save := Save(alice, 0, id, bundle, None, 10, 1, NoCrash);
            var run := [save, List(bob, 20), Load(alice, 5, id)];
            && Answers(EmptyDisk, run, alice, key)[1..] == [NotFound]
            && Answers(EmptyDisk, Mine(run, alice), alice, key)[1..] == [Loaded(bundle)]
  {
    var save := Save(alice, 0, id, bundle, None, 10, 1, NoCrash);
    var load := Load(alice, 5, id);
    var d1 := Step(EmptyDisk, save, key).0;
    assert Owned(Prune(EmptyDisk, 0), alice) == {};
    assert d1 == Disk(map[id := Good(NewManifest(save))], map[id := Sealed(key, bundle)]);
    var d2 := Step(d1, List(bob, 20), key).0;
    assert id in Stale(d1, 20);
    assert Step(d2, load, key).1 == NotFound && Step(d1, load, key).1 == Loaded(bundle);
    var run := [save, List(bob, 20), load];
    assert run[1..] == [List(bob, 20), load] && run[1..][1..] == [load] && [load][1..] == [];
    assert Answers(d2, [load], alice, key) == [NotFound];
    assert Answers(d1, run[1..], alice, key) == [NotFound];
    assert Mine([load], alice) == [load] && Mine(run[1..], alice) == [load] && Mine(run, alice) == [save, load];
    assert [save, load][1..] == [load];
    assert Answers(d1, [load], alice, key) == [Loaded(bundle)];
  }
}
