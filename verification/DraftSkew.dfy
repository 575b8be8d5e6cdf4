// Non-interference of the draft store without a common clock: requests may come
// with clocks that run ahead or behind.
module DraftSkew {
  import opened Json
  import opened DraftStore
  import opened DraftIsolation

  /** No pruning operation of another principal has a clock at or past the expiry
      of a draft that `who` can still see with the clock of a later request. */
  ghost predicate Harmless(d: Disk, ops: seq<Op>, who: string, key: string)
    decreases |ops|
  {
    ops != [] ==>
      && (ops[0].who != who && Prunes(ops[0]) ==> SparesLater(d, ops[1..], who, ops[0].now))
      && Harmless(Step(d, ops[0], key).0, ops[1..], who, key)
  }

  ghost predicate SparesLater(d: Disk, later: seq<Op>, who: string, clock: int) {
    forall j :: 0 <= j < |later| && later[j].who == who ==> !ExpiresBetween(d, who, later[j].now, clock)
  }

  /** Whatever `who` is still going to ask, both disks show it the same drafts. */
  ghost predicate AgreeFor(d: Disk, e: Disk, who: string, ops: seq<Op>) {
    forall j :: 0 <= j < |ops| && ops[j].who == who ==> SameFrom(d, e, who, ops[j].now)
  }

  // ------------------------------------------------- one step on both disks

  lemma PruneView(d: Disk, who: string, clock: int, now: int)
    ensures View(Prune(d, clock), who, now) == Fresh(View(d, who, now), clock)
  {
  }

  lemma PruneAgrees(d: Disk, e: Disk, who: string, clock: int, t: int)
    requires SameFrom(d, e, who, t)
    ensures SameFrom(Prune(d, clock), Prune(e, clock), who, t)
  {
    forall now | t <= now ensures View(Prune(d, clock), who, now) == View(Prune(e, clock), who, now) {
      PruneView(d, who, clock, now);
      PruneView(e, who, clock, now);
    }
  }

  function Added(p: Disk, id: string, m: Manifest, body: Option<Cipher>): Disk {
    Disk(p.manifests[id := Good(m)], if body.Some? then p.bundles[id := body.value] else p.bundles)
  }

  lemma AddAgrees(p: Disk, q: Disk, id: string, m: Manifest, body: Option<Cipher>, t: int)
    requires SameFrom(p, q, m.owner, t) && id !in Dirs(p) && id !in Dirs(q)
    ensures SameFrom(Added(p, id, m, body), Added(q, id, m, body), m.owner, t)
  {
    forall now | t <= now ensures View(Added(p, id, m, body), m.owner, now) == View(Added(q, id, m, body), m.owner, now) {
      NewDirectory(p, id, m, body, now);
      NewDirectory(q, id, m, body, now);
    }
  }

  lemma SameCount(d: Disk, e: Disk, who: string, now: int)
    requires View(d, who, now) == View(e, who, now)
    ensures Owned(Prune(d, now), who) == Owned(Prune(e, now), who)
  {
    PrunedOwned(d, who, now);
    PrunedOwned(e, who, now);
  }

  lemma SaveAgrees(d: Disk, e: Disk, op: Op, key: string, t: int)
    requires op.Save? && op.id !in Dirs(d) && op.id !in Dirs(e)
    requires SameFrom(d, e, op.who, op.now) && SameFrom(d, e, op.who, t)
    ensures SameFrom(Step(d, op, key).0, Step(e, op, key).0, op.who, t)
  {
    var p, q, m := Prune(d, op.now), Prune(e, op.now), NewManifest(op);
    SameCount(d, e, op.who, op.now);
    PruneAgrees(d, e, op.who, op.now, t);
    AddAgrees(p, q, op.id, m, None, t);
    AddAgrees(p, q, op.id, m, Some(Sealed(key, op.bundle)), t);
    WriteIs(p, op, key);
    WriteIs(q, op, key);
  }

  lemma WriteIs(p: Disk, op: Op, key: string)
    requires op.Save?
    ensures var m := NewManifest(op);
            Write(p, op, key).0 ==
            if |Owned(p, op.who)| >= op.maxDrafts || op.crash.BeforeManifest? then p
            else if op.crash.BetweenWrites? then Added(p, op.id, m, None)
            else Added(p, op.id, m, Some(Sealed(key, op.bundle)))
  {
  }

  lemma DeleteAgrees(d: Disk, e: Disk, op: Op, key: string, t: int)
    requires op.Delete? && SameFrom(d, e, op.who, op.now) && SameFrom(d, e, op.who, t)
    ensures SameFrom(Step(d, op, key).0, Step(e, op, key).0, op.who, t)
  {
    assert View(d, op.who, op.now) == View(e, op.who, op.now);
    assert Accessible(d, op.id, op.who, op.now) <==> op.id in View(d, op.who, op.now);
    assert Accessible(e, op.id, op.who, op.now) <==> op.id in View(e, op.who, op.now);
    forall now | t <= now
      ensures View(RemoveDir(d, op.id), op.who, now) == View(RemoveDir(e, op.id), op.who, now)
    {
      RemoveView(d, op.id, op.who, now);
      RemoveView(e, op.id, op.who, now);
    }
  }

  lemma RemoveView(d: Disk, id: string, who: string, now: int)
    ensures View(RemoveDir(d, id), who, now) == View(d, who, now) - {id}
  {
  }

  lemma OwnAnswers(d: Disk, op: Op, key: string)
    requires op.Save? ==> op.id !in Dirs(d)
    ensures Step(d, op, key).1 == PrivateStep(View(d, op.who, op.now), op, key).1
  {
    match op
    case Save(_, _, _, _, _, _, _, _) => OwnSavePrivate(d, op, key);
    case List(_, _) => OwnListPrivate(d, op, key);
    case _ => OwnLookupPrivate(d, op, key);
  }

  // An own operation answers the same on both disks and keeps them in agreement.
  lemma OwnStepAgrees(d: Disk, e: Disk, op: Op, key: string, t: int)
    requires op.Save? ==> op.id !in Dirs(d) && op.id !in Dirs(e)
    requires SameFrom(d, e, op.who, op.now) && SameFrom(d, e, op.who, t)
    ensures Step(d, op, key).1 == Step(e, op, key).1
    ensures SameFrom(Step(d, op, key).0, Step(e, op, key).0, op.who, t)
  {
    assert View(d, op.who, op.now) == View(e, op.who, op.now);
    OwnAnswers(d, op, key);
    OwnAnswers(e, op, key);
    match op
    case Save(_, _, _, _, _, _, _, _) => SaveAgrees(d, e, op, key, t);
    case List(_, _) => PruneAgrees(d, e, op.who, op.now, t);
    case Load(_, _, _) =>
    case Delete(_, _, _) => DeleteAgrees(d, e, op, key, t);
  }

  // Another principal's operation on one disk only keeps them in agreement.
  lemma OtherStepAgrees(d: Disk, e: Disk, op: Op, later: seq<Op>, who: string, key: string)
    requires op.who != who && (op.Save? ==> op.id !in Dirs(d)) && AgreeFor(d, e, who, later)
    requires Prunes(op) ==> SparesLater(d, later, who, op.now)
    ensures AgreeFor(Step(d, op, key).0, e, who, later)
  {
    var d' := Step(d, op, key).0;
    forall j | 0 <= j < |later| && later[j].who == who ensures SameFrom(d', e, who, later[j].now) {
      var t := later[j].now;
      OtherStepInvisibleIff(d, op, who, key, t);
      forall now | t <= now ensures View(d', who, now) == View(e, who, now) {
        assert View(d', who, now) == View(d, who, now);
      }
    }
  }

  lemma OwnStepAgreesFor(d: Disk, e: Disk, op: Op, later: seq<Op>, key: string)
    requires op.Save? ==> op.id !in Dirs(d) && op.id !in Dirs(e)
    requires SameFrom(d, e, op.who, op.now) && AgreeFor(d, e, op.who, later)
    ensures Step(d, op, key).1 == Step(e, op, key).1
    ensures AgreeFor(Step(d, op, key).0, Step(e, op, key).0, op.who, later)
  {
    OwnStepAgrees(d, e, op, key, op.now);
    forall j | 0 <= j < |later| && later[j].who == op.who
      ensures SameFrom(Step(d, op, key).0, Step(e, op, key).0, op.who, later[j].now)
    {
      OwnStepAgrees(d, e, op, key, later[j].now);
    }
  }

  lemma AgreeForLater(d: Disk, e: Disk, who: string, ops: seq<Op>)
    requires AgreeFor(d, e, who, ops) && ops != []
    ensures AgreeFor(d, e, who, ops[1..]) && (ops[0].who == who ==> SameFrom(d, e, who, ops[0].now))
  {
    forall j | 0 <= j < |ops[1..]| && ops[1..][j].who == who ensures SameFrom(d, e, who, ops[1..][j].now) {
      assert ops[1..][j] == ops[j + 1];
    }
  }

  // ------------------------------------------------------------ whole runs

  lemma {:induction false} SkewedAnswers(d: Disk, e: Disk, ops: seq<Op>, who: string, key: string, used: set<string>)
    requires FreshIds(ops, used) && Dirs(d) <= used && Dirs(e) <= used
    requires AgreeFor(d, e, who, ops) && Harmless(d, ops, who, key)
    ensures Answers(d, ops, who, key) == Answers(e, Mine(ops, who), who, key)
    decreases |ops|
  {
    if ops != [] {
      var op, rest := ops[0], ops[1..];
      var d' := Step(d, op, key).0;
      AgreeForLater(d, e, who, ops);
      StepDirs(d, op, key, used);
      if op.who == who {
        StepDirs(e, op, key, used);
        OwnStepAgreesFor(d, e, op, rest, key);
        SkewedAnswers(d', Step(e, op, key).0, rest, who, key, Used(op, used));
        assert Mine(ops, who)[0] == op && Mine(ops, who)[1..] == Mine(rest, who);
      } else {
        OtherStepAgrees(d, e, op, rest, who, key);
        assert Dirs(e) <= Used(op, used);
        SkewedAnswers(d', e, rest, who, key, Used(op, used));
      }
    }
  }

  // Whatever the clocks: deleting every other principal's operation from a run
  // leaves each answer `who` gets unchanged, as long as none of them prunes with a
  // clock at or past the expiry of a draft `who` can still see later in the run.
  lemma SkewedNonInterference(d: Disk, ops: seq<Op>, who: string, key: string)
    requires FreshIds(ops, Dirs(d)) && Harmless(d, ops, who, key)
    ensures Answers(d, ops, who, key) == Answers(d, Mine(ops, who), who, key)
  {
    SkewedAnswers(d, d, ops, who, key, Dirs(d));
  }

  // A clock that never runs backwards is one case of it.
  lemma {:induction false} MonotoneIsHarmless(d: Disk, ops: seq<Op>, who: string, key: string, t: int)
    requires Monotone(ops, t)
    ensures Harmless(d, ops, who, key)
    decreases |ops|
  {
    if ops != [] {
      MonotoneIsHarmless(Step(d, ops[0], key).0, ops[1..], who, key, ops[0].now);
      forall j | 0 <= j < |ops[1..]| ensures ops[0].now <= ops[1..][j].now {
        LaterIsLater(ops[1..], ops[0].now, j);
      }
    }
  }

  lemma {:induction false} LaterIsLater(ops: seq<Op>, t: int, j: nat)
    requires Monotone(ops, t) && j < |ops|
    ensures t <= ops[j].now
    decreases j
  {
    if j > 0 {
      LaterIsLater(ops[1..], ops[0].now, j - 1);
    }
  }
}
