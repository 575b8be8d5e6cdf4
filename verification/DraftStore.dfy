// The server-side draft store: a plaintext manifest and an encrypted bundle per
// draft directory, opportunistic pruning, and a two-write save.
module DraftStore {
  import opened Json
  import StableSort

  datatype Bundle = Bundle(content: string, containsConnections: bool)

  datatype Manifest = Manifest(
    id: string, owner: string, description: Option<string>,
    createdAt: int, expiresAt: int, containsConnections: bool)

  datatype Summary = Summary(
    id: string, description: Option<string>, createdAt: int, expiresAt: int, containsConnections: bool)

  /** Corrupt: unreadable, not JSON, or missing a required key. */
  datatype ManifestFile = Good(m: Manifest) | Corrupt

  /** Authenticated encryption: only the key it was sealed with opens it. */
  datatype Cipher = Sealed(key: string, bundle: Bundle) | Garbage

  datatype Disk = Disk(manifests: map<string, ManifestFile>, bundles: map<string, Cipher>)

  const EmptyDisk := Disk(map[], map[])

  /** Where a save may be cut short. */
  datatype Crash = NoCrash | BeforeManifest | BetweenWrites

  datatype Op =
    | Save(who: string, now: int, id: string, bundle: Bundle, description: Option<string>,
           retention: int, maxDrafts: int, crash: Crash)
    | List(who: string, now: int)
    | Load(who: string, now: int, id: string)
    | Delete(who: string, now: int, id: string)

  /** Lost: the process died before it could answer. */
  datatype Result =
    | Saved(summary: Summary)
    | Refused(existing: nat)
    | Listed(summaries: set<Summary>)
    | Loaded(bundle: Bundle)
    | Deleted
    | NotFound
    | Lost

  // ------------------------------------------------------- one operation

  predicate Expired(f: ManifestFile, now: int) {
    f.Good? && f.m.expiresAt <= now
  }

  predicate OwnedBy(f: ManifestFile, who: string) {
    f.Good? && f.m.owner == who
  }

  function SummaryOf(m: Manifest): Summary {
    Summary(m.id, m.description, m.createdAt, m.expiresAt, m.containsConnections)
  }

  function RemoveDir(d: Disk, id: string): Disk {
    Disk(d.manifests - {id}, d.bundles - {id})
  }

  /** Every draft whose retention has run out. */
  function Stale(d: Disk, now: int): set<string> {
    set id | id in d.manifests && Expired(d.manifests[id], now)
  }

  function Prune(d: Disk, now: int): Disk {
    Disk(d.manifests - Stale(d, now), d.bundles - Stale(d, now))
  }

  function Owned(d: Disk, who: string): set<string> {
    set id | id in d.manifests && OwnedBy(d.manifests[id], who)
  }

  /** `_owned_manifest` succeeds. */
  predicate Accessible(d: Disk, id: string, who: string, now: int) {
    id in d.manifests && OwnedBy(d.manifests[id], who) && !Expired(d.manifests[id], now)
  }

  function Open(c: Cipher, key: string): Option<Bundle> {
    if c.Sealed? && c.key == key then Some(c.bundle) else None
  }

  function NewManifest(op: Op): Manifest
    requires op.Save?
  {
    Manifest(op.id, op.who, op.description, op.now, op.now + op.retention, op.bundle.containsConnections)
  }

  /** The rest of `save` once expired drafts are gone: manifest first, then bundle. */
  function Write(p: Disk, op: Op, key: string): (Disk, Result)
    requires op.Save?
  {
    var existing := |Owned(p, op.who)|;
    if existing >= op.maxDrafts then (p, Refused(existing))
    else if op.crash.BeforeManifest? then (p, Lost)
    else
      var q := Disk(p.manifests[op.id := Good(NewManifest(op))], p.bundles);
      if op.crash.BetweenWrites? then (q, Lost)
      else (Disk(q.manifests, q.bundles[op.id := Sealed(key, op.bundle)]), Saved(SummaryOf(NewManifest(op))))
  }

  function Step(d: Disk, op: Op, key: string): (Disk, Result) {
    match op
    case Save(_, now, _, _, _, _, _, _) => Write(Prune(d, now), op, key)
    case List(who, now) =>
      var p := Prune(d, now);
      (p, Listed(set id | id in Owned(p, who) :: SummaryOf(p.manifests[id].m)))
    case Load(who, now, id) =>
      (d,
       if Accessible(d, id, who, now) && id in d.bundles && Open(d.bundles[id], key).Some?
       then Loaded(Open(d.bundles[id], key).value) else NotFound)
    case Delete(who, now, id) =>
      if Accessible(d, id, who, now) then (RemoveDir(d, id), Deleted) else (d, NotFound)
  }

  function Run(d: Disk, ops: seq<Op>, key: string): Disk
    decreases |ops|
  {
    if ops == [] then d else Run(Step(d, ops[0], key).0, ops[1..], key)
  }

  /** The answers principal `who` gets in a run. */
  function Answers(d: Disk, ops: seq<Op>, who: string, key: string): seq<Result>
    decreases |ops|
  {
    if ops == [] then []
    else
      var s := Step(d, ops[0], key);
      var rest := Answers(s.0, ops[1..], who, key);
      if ops[0].who == who then [s.1] + rest else rest
  }

  // ------------------------------------------------------- imperative form

  class DraftFiles {
    const key: string
    var manifests: map<string, ManifestFile>
    var bundles: map<string, Cipher>

    function State(): Disk
      reads this
    {
      Disk(manifests, bundles)
    }

    constructor (encryptionKey: string)
      ensures State() == EmptyDisk && key == encryptionKey
    {
      key, manifests, bundles := encryptionKey, map[], map[];
    }

    method RemoveDirectory(id: string)
      modifies this
      ensures State() == RemoveDir(old(State()), id)
    {
      manifests := manifests - {id};
      bundles := bundles - {id};
    }

    /** One pass over the directories, in any order. */
    method PruneExpired(now: int)
      modifies this
      ensures State() == Prune(old(State()), now)
    {
      var ids := manifests.Keys;
      ghost var done := {};
      while ids != {}
        invariant ids + done == old(manifests).Keys && ids !! done
        invariant manifests == old(manifests) - (Stale(old(State()), now) * done)
        invariant bundles == old(bundles) - (Stale(old(State()), now) * done)
        decreases ids
      {
        var id :| id in ids;
        ids := ids - {id};
        done := done + {id};
        var f := manifests[id];
        if f.Good? && f.m.expiresAt <= now {
          RemoveDirectory(id);
        }
      }
      assert Stale(old(State()), now) * done == Stale(old(State()), now);
    }

    method CountOwned(who: string) returns (n: nat)
      ensures n == |Owned(State(), who)|
    {
      n := 0;
      var ids := manifests.Keys;
      ghost var mine := {};
      while ids != {}
        invariant ids <= manifests.Keys && n == |mine| && mine !! ids
        invariant mine == set id | id in manifests && id !in ids && OwnedBy(manifests[id], who)
        decreases ids
      {
        var id :| id in ids;
        ids := ids - {id};
        var f := manifests[id];
        if f.Good? && f.m.owner == who {
          n := n + 1;
          mine := mine + {id};
        }
      }
      assert mine == Owned(State(), who);
    }

    /** `save` without a crash; `id` is the fresh uuid. */
    method SaveDraft(who: string, now: int, id: string, bundle: Bundle, description: Option<string>,
                     retention: int, maxDrafts: int) returns (r: Result)
      modifies this
      ensures (State(), r) == Step(old(State()), Save(who, now, id, bundle, description, retention, maxDrafts, NoCrash), key)
    {
      PruneExpired(now);
      var existing := CountOwned(who);
      if existing >= maxDrafts {
        return Refused(existing);
      }
      var m := Manifest(id, who, description, now, now + retention, bundle.containsConnections);
      manifests := manifests[id := Good(m)];
      bundles := bundles[id := Sealed(key, bundle)];
      r := Saved(Summary(id, description, now, now + retention, bundle.containsConnections));
    }

    /** Newest first; directories are visited in any order. */
    method ListForPrincipal(who: string, now: int) returns (r: seq<Summary>)
      modifies this
      ensures (State(), Listed(set s | s in r)) == Step(old(State()), List(who, now), key)
      ensures |r| == |Owned(State(), who)|
      ensures forall i, j :: 0 <= i < j < |r| ==> r[i].createdAt >= r[j].createdAt
    {
      PruneExpired(now);
      var found := [];
      var ids := manifests.Keys;
      ghost var mine := {};
      while ids != {}
        invariant ids <= manifests.Keys && mine !! ids && |found| == |mine|
        invariant mine == set id | id in manifests && id !in ids && OwnedBy(manifests[id], who)
        invariant forall s :: s in found <==> exists id :: id in mine && SummaryOf(manifests[id].m) == s
        invariant State() == Prune(old(State()), now)
        decreases ids
      {
        var id :| id in ids;
        ids := ids - {id};
        var f := manifests[id];
        if f.Good? && f.m.owner == who {
          ghost var was := found;
          ghost var before := mine;
          found := found + [Summary(f.m.id, f.m.description, f.m.createdAt, f.m.expiresAt, f.m.containsConnections)];
          mine := mine + {id};
          forall s
            ensures s in found <==> exists j :: j in mine && SummaryOf(manifests[j].m) == s
          {
            if s in was {
              var j :| j in before && SummaryOf(manifests[j].m) == s;
              assert j in mine;
            }
          }
        }
      }
      assert mine == Owned(State(), who);
      var newest := (a: Summary, b: Summary) => a.createdAt >= b.createdAt;
      r := StableSort.Sort(found, newest);
      StableSort.SortPermutes(found, newest);
      StableSort.SortSorts(found, newest);
      forall s ensures s in r <==> s in found {
        assert s in r <==> s in multiset(r);
        assert s in found <==> s in multiset(found);
      }
      assert (set s | s in r) == set id | id in Owned(State(), who) :: SummaryOf(manifests[id].m);
    }

    method LoadDraft(who: string, now: int, id: string) returns (r: Result)
      ensures (State(), r) == Step(State(), Load(who, now, id), key)
      ensures r.Loaded? || r == NotFound
      ensures forall b :: r == Loaded(b) <==>
                && id in manifests && manifests[id].Good? && manifests[id].m.owner == who && now < manifests[id].m.expiresAt
                && id in bundles && bundles[id] == Sealed(key, b)
    {
      if id !in manifests || manifests[id].Corrupt? {
        return NotFound;
      }
      var m := manifests[id].m;
      if m.expiresAt <= now || m.owner != who || id !in bundles {
        return NotFound;
      }
      var plain := Open(bundles[id], key);
      r := if plain.Some? then Loaded(plain.value) else NotFound;
    }

    method DeleteDraft(who: string, now: int, id: string) returns (r: Result)
      modifies this
      ensures (State(), r) == Step(old(State()), Delete(who, now, id), key)
    {
      if id !in manifests || manifests[id].Corrupt? {
        return NotFound;
      }
      var m := manifests[id].m;
      if m.expiresAt <= now || m.owner != who {
        return NotFound;
      }
      RemoveDirectory(id);
      r := Deleted;
    }
  }
}
