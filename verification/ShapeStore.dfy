// `InProcessObservedShapeStore`: a bounded recorder that evicts the least
// recently seen shape. Its object invariant ties every field to the history of
// successful records since the last clear.
module ShapeStore {
  import opened Json
  import opened Skeleton
  import opened AliasCanonical
  import opened ShapeHistory
  import StableSort

  datatype Entry = Entry(what: Observed, occurrences: nat, firstSeen: int, lastSeen: int)

  datatype Outcome = Disabled | Failed | Recorded(entry: Entry)

  /** One row per shape, connection and principal. */
  function Key(hash: string, connection: string, principal: Option<string>): string {
    hash + (":" + connection + ":" + Or(principal, ""))
  }

  // The row key confuses nothing when digests have one length and connection
  // ids hold no colon, except an absent principal with an empty one.
  lemma KeyInjective(h1: string, c1: string, p1: Option<string>, h2: string, c2: string, p2: Option<string>)
    requires |h1| == |h2| && ':' !in c1 && ':' !in c2
    requires Key(h1, c1, p1) == Key(h2, c2, p2)
    ensures h1 == h2 && c1 == c2
    ensures p1 == p2 || (p1 in {None, Some("")} && p2 in {None, Some("")})
  {
    var q1, q2 := Or(p1, ""), Or(p2, "");
    HeadSplits(h1, ":" + c1 + ":" + q1, h2, ":" + c2 + ":" + q2);
    assert (":" + c1 + ":" + q1)[1..] == c1 + [':'] + q1 && (":" + c2 + ":" + q2)[1..] == c2 + [':'] + q2;
    SeparatorSplits(c1, q1, c2, q2, ':');
  }

  lemma HeadSplits<T>(a: seq<T>, r: seq<T>, b: seq<T>, t: seq<T>)
    requires |a| == |b| && a + r == b + t
    ensures a == b && r == t
  {
    assert (a + r)[..|a|] == a && (b + t)[..|a|] == b;
    assert (a + r)[|a|..] == r && (b + t)[|a|..] == t;
  }

  lemma SeparatorSplits<T>(a: seq<T>, r: seq<T>, b: seq<T>, t: seq<T>, sep: T)
    requires sep !in a && sep !in b && a + [sep] + r == b + [sep] + t
    ensures a == b && r == t
  {
    if |a| < |b| {
      SeparatorInside(a, r, b, t, sep);
    } else if |b| < |a| {
      SeparatorInside(b, t, a, r, sep);
    } else {
      HeadSplits(a + [sep], r, b + [sep], t);
      HeadSplits(a, [sep], b, [sep]);
    }
  }

  lemma SeparatorInside<T>(a: seq<T>, r: seq<T>, b: seq<T>, t: seq<T>, sep: T)
    requires |a| < |b| && a + [sep] + r == b + [sep] + t
    ensures sep in b
  {
    assert (a + [sep] + r)[|a|] == sep && (b + [sep] + t)[|a|] == b[|a|];
  }

  // Queries of one shape, and queries whose skeletons differ by a renaming of
  // aliases, fall into one row, whatever the digest.
  lemma VariantsShareRow(a: Json, b: Json, digest: Json -> string)
    requires Skeletonize(a).Some? && Skeletonize(b).Some?
    requires SameShape(a, b) || AlphaEquivalent(Skeletonize(a).value.skeleton, Skeletonize(b).value.skeleton)
    ensures ShapeHash(Skeletonize(a).value.skeleton, digest) == ShapeHash(Skeletonize(b).value.skeleton, digest)
  {
    var s, t := Skeletonize(a).value.skeleton, Skeletonize(b).value.skeleton;
    if SameShape(a, b) {
      SkeletonDecidesShape(a, b);
    } else {
      var rho :| IsRenaming(s, rho) && t == Replace(s, rho);
      RenamingKeepsCanonical(s, rho);
    }
  }

  /** What an entry records about the hits it took. */
  ghost function EntryOf(hits: seq<Hit>): Entry
    requires hits != []
  {
    Entry(hits[0].what, |hits|, hits[0].at, hits[|hits| - 1].at)
  }

  // One hit touches only the stretch of its own key.
  lemma StretchStep(h: seq<Hit>, x: Hit, cap: nat, k: string)
    ensures Stretch(h + [x], cap, k) ==
            if k != x.key then Stretch(h, cap, k)
            else if x.key in Kept(h, cap) then Stretch(h, cap, k) + [x]
            else [x]
  {
    assert (h + [x])[..|h|] == h;
  }

  /** The fields of a recorder are what the history says they should be. */
  ghost predicate Reflects(h: seq<Hit>, cap: nat, order: seq<string>, entries: map<string, Entry>, evicted: nat) {
    && order == Kept(h, cap)
    && (forall k :: k in entries <==> k in order)
    && (forall k :: k in order ==> EntryReflects(h, cap, entries, k))
    && evicted == Evictions(h, cap)
  }

  ghost predicate EntryReflects(h: seq<Hit>, cap: nat, entries: map<string, Entry>, k: string) {
    var hits := Stretch(h, cap, k);
    k in entries && hits != [] && entries[k] == EntryOf(hits)
  }

  function Refreshed(e: Entry, now: int): Entry {
    e.(occurrences := e.occurrences + 1, lastSeen := now)
  }

  lemma EvictionsStep(h: seq<Hit>, x: Hit, cap: nat)
    ensures Evictions(h + [x], cap) ==
            Evictions(h, cap) + if x.key !in Kept(h, cap) && |Kept(h, cap)| == cap then 1 else 0
  {
    assert (h + [x])[..|h|] == h;
  }

  lemma RefreshEntry(h: seq<Hit>, x: Hit, cap: nat, entries: map<string, Entry>, k: string)
    requires EntryReflects(h, cap, entries, k) && x.key in entries && x.key in Kept(h, cap)
    ensures EntryReflects(h + [x], cap, entries[x.key := Refreshed(entries[x.key], x.at)], k)
  {
    StretchStep(h, x, cap, k);
  }

  // Refreshing an entry and moving it to the end reflects one more hit.
  lemma RefreshReflects(h: seq<Hit>, x: Hit, cap: nat, order: seq<string>, entries: map<string, Entry>, evicted: nat)
    requires cap > 0 && Reflects(h, cap, order, entries, evicted) && x.key in order
    ensures Reflects(h + [x], cap, Without(order, x.key) + [x.key],
                     entries[x.key := Refreshed(entries[x.key], x.at)], evicted)
  {
    KeptStep(h, x, cap);
    EvictionsStep(h, x, cap);
    forall k | k in order
      ensures EntryReflects(h + [x], cap, entries[x.key := Refreshed(entries[x.key], x.at)], k)
    {
      RefreshEntry(h, x, cap, entries, k);
    }
  }

  lemma CreateEntry(h: seq<Hit>, x: Hit, cap: nat, entries: map<string, Entry>, k: string)
    requires k == x.key || EntryReflects(h, cap, entries, k)
    requires x.key !in Kept(h, cap)
    ensures EntryReflects(h + [x], cap, entries[x.key := Entry(x.what, 1, x.at, x.at)], k)
  {
    StretchStep(h, x, cap, k);
  }

  /** What remains of a record that makes room for one entry. */
  function Room<K, T>(order: seq<K>, entries: map<K, T>, cap: nat): (seq<K>, map<K, T>)
    requires cap > 0
  {
    if |order| == cap then (order[1..], entries - {order[0]}) else (order, entries)
  }

  lemma RoomKeys<K(!new), T>(order: seq<K>, entries: map<K, T>, cap: nat)
    requires cap > 0 && StableSort.NoDuplicates(order) && forall k :: k in entries <==> k in order
    ensures var (o, e) := Room(order, entries, cap);
            && (forall k :: k in e <==> k in o)
            && (forall k :: k in o ==> k in order && e[k] == entries[k])
  {
    if |order| == cap {
      assert order == [order[0]] + order[1..];
    }
  }

  lemma KeysAfter<K(!new), T>(order: seq<K>, entries: map<K, T>, key: K, value: T)
    requires forall k :: k in entries <==> k in order
    ensures forall k :: k in entries[key := value] <==> k in order + [key]
  {
  }

  lemma CreateEntries(h: seq<Hit>, x: Hit, cap: nat, order: seq<string>, entries: map<string, Entry>)
    requires x.key !in Kept(h, cap) && forall k :: k in order ==> EntryReflects(h, cap, entries, k)
    ensures forall k :: k in order + [x.key] ==> EntryReflects(h + [x], cap, entries[x.key := Entry(x.what, 1, x.at, x.at)], k)
  {
    forall k | k in order + [x.key]
      ensures EntryReflects(h + [x], cap, entries[x.key := Entry(x.what, 1, x.at, x.at)], k)
    {
      CreateEntry(h, x, cap, entries, k);
    }
  }

  lemma RoomReflects(h: seq<Hit>, cap: nat, order: seq<string>, entries: map<string, Entry>, evicted: nat)
    requires cap > 0 && Reflects(h, cap, order, entries, evicted)
    ensures var (o, e) := Room(order, entries, cap);
            (forall k :: k in e <==> k in o) && forall k :: k in o ==> EntryReflects(h, cap, e, k)
  {
    KeptDistinct(h, cap);
    RoomKeys(order, entries, cap);
    var (o, e) := Room(order, entries, cap);
    forall k | k in o ensures EntryReflects(h, cap, e, k) {
      assert EntryReflects(h, cap, entries, k);
    }
  }

  // Adding an entry, and dropping the oldest of a full record, reflects one more hit.
  lemma CreateReflects(h: seq<Hit>, x: Hit, cap: nat, order: seq<string>, entries: map<string, Entry>, evicted: nat)
    requires cap > 0 && Reflects(h, cap, order, entries, evicted) && x.key !in order
    ensures var (o, e) := Room(order, entries, cap);
            Reflects(h + [x], cap, o + [x.key], e[x.key := Entry(x.what, 1, x.at, x.at)],
                     evicted + if |order| == cap then 1 else 0)
    ensures |order| <= cap
  {
    KeptStep(h, x, cap);
    EvictionsStep(h, x, cap);
    var (o, e) := Room(order, entries, cap);
    RoomReflects(h, cap, order, entries, evicted);
    CreateEntries(h, x, cap, o, e);
    KeysAfter(o, e, x.key, Entry(x.what, 1, x.at, x.at));
  }

  predicate Wanted(e: Entry, connection: Option<string>, principal: Option<string>) {
    && (connection.Some? ==> e.what.connection == connection.value)
    && (principal.Some? ==> e.what.principal == principal)
  }

  /** The ranking of `list_shapes`: most used first, then first seen. */
  predicate MoreUsed(a: Entry, b: Entry) {
    a.occurrences > b.occurrences || (a.occurrences == b.occurrences && a.firstSeen <= b.firstSeen)
  }

  lemma AllKnown(h: seq<Hit>, cap: nat, order: seq<string>, entries: map<string, Entry>, evicted: nat)
    requires Reflects(h, cap, order, entries, evicted)
    ensures forall k :: k in order ==> k in entries
  {
  }

  /** The wanted entries, oldest first. */
  ghost function Rows(keys: seq<string>, entries: map<string, Entry>, connection: Option<string>, principal: Option<string>): seq<Entry>
    requires forall k :: k in keys ==> k in entries
  {
    if keys == [] then []
    else
      var n := |keys| - 1;
      var e := entries[keys[n]];
      if (connection == None || connection == Some(e.what.connection)) && (principal == None || principal == e.what.principal)
      then Rows(keys[..n], entries, connection, principal) + [e]
      else Rows(keys[..n], entries, connection, principal)
  }

  method RankedRows(order: seq<string>, entries: map<string, Entry>, connection: Option<string>, principal: Option<string>)
    returns (r: seq<Entry>)
    requires forall k :: k in order ==> k in entries
    ensures multiset(r) == multiset(Rows(order, entries, connection, principal))
    ensures forall i, j :: 0 <= i < j < |r| ==>
              || r[i].occurrences > r[j].occurrences
              || (r[i].occurrences == r[j].occurrences && r[i].firstSeen <= r[j].firstSeen)
  {
    var rows := [];
    for i := 0 to |order|
      invariant rows == Rows(order[..i], entries, connection, principal)
    {
      assert order[..i + 1][..i] == order[..i];
      var e := entries[order[i]];
      if Wanted(e, connection, principal) {
        rows := rows + [e];
      }
    }
    assert order[..|order|] == order;
    r := StableSort.Sort(rows, MoreUsed);
    StableSort.SortPermutes(rows, MoreUsed);
    StableSort.SortSorts(rows, MoreUsed);
  }

  predicate Found(order: seq<string>, entries: map<string, Entry>, i: int, hash: string, connection: Option<string>, principal: Option<string>) {
    && 0 <= i < |order|
    && order[i] in entries
    && var what := entries[order[i]].what;
       && what.hash == hash
       && (connection == None || connection == Some(what.connection))
       && (principal == None || principal == what.principal)
  }

  ghost predicate FirstFound(order: seq<string>, entries: map<string, Entry>, i: int, hash: string, connection: Option<string>, principal: Option<string>) {
    && Found(order, entries, i, hash, connection, principal)
    && forall j :: 0 <= j < i ==> !Found(order, entries, j, hash, connection, principal)
  }

  method FirstMatch(order: seq<string>, entries: map<string, Entry>, hash: string, connection: Option<string>, principal: Option<string>)
    returns (r: Option<Entry>)
    requires forall k :: k in order ==> k in entries
    ensures r.None? ==> forall i :: 0 <= i < |order| ==> !Found(order, entries, i, hash, connection, principal)
    ensures r.Some? ==> exists i :: FirstFound(order, entries, i, hash, connection, principal) && r.value == entries[order[i]]
  {
    for i := 0 to |order|
      invariant forall j :: 0 <= j < i ==> !Found(order, entries, j, hash, connection, principal)
    {
      var e := entries[order[i]];
      if e.what.hash == hash && Wanted(e, connection, principal) {
        assert FirstFound(order, entries, i, hash, connection, principal);
        return Some(e);
      }
    }
    r := None;
  }

  class ShapeRecorder {
    const cap: nat
    var enabled: bool
    var order: seq<string>
    var entries: map<string, Entry>
    var evictedTotal: nat
    var failures: nat
    ghost var history: seq<Hit>

    ghost predicate Valid()
      reads this
    {
      cap > 0 && Reflects(history, cap, order, entries, evictedTotal)
    }

    constructor (maxEntries: nat, on: bool)
      requires maxEntries >= 1
      ensures Valid() && history == [] && cap == maxEntries && enabled == on && failures == 0
    {
      cap, enabled := maxEntries, on;
      order, entries, evictedTotal, failures := [], map[], 0, 0;
      history := [];
    }

    /** `digest` is sha256 over the key-sorted dump; `now` is the clock. */
    method Record(query: Json, connection: string, principal: Option<string>, now: int, digest: Json -> string)
      returns (r: Outcome)
      requires Valid()
      modifies this
      ensures Valid() && enabled == old(enabled)
      ensures r.Disabled? <==> !enabled
      ensures r.Failed? <==> enabled && Skeletonize(query).None?
      ensures failures == old(failures) + if r.Failed? then 1 else 0
      ensures !r.Recorded? ==> history == old(history)
      ensures r.Recorded? ==>
                var hash := ShapeHash(Skeletonize(query).value.skeleton, digest);
                var key := Key(hash, connection, principal);
                && history == old(history) + [Hit(key, now, Observed(hash, connection, principal, Skeletonize(query).value))]
                && key in entries && order != [] && order[|order| - 1] == key && r.entry == entries[key]
                && r.entry == (if key in old(entries)
                               then var e := old(entries)[key]; Entry(e.what, e.occurrences + 1, e.firstSeen, now)
                               else Entry(Observed(hash, connection, principal, Skeletonize(query).value), 1, now, now))
    {
      if !enabled {
        return Disabled;
      }
      var shape := SkeletonizeQuery(query);
      if shape.None? {
        failures := failures + 1;
        return Failed;
      }
      var hash := ComputeShapeHash(shape.value.skeleton, digest);
      var key := Key(hash, connection, principal);
      var entry := Touch(key, Observed(hash, connection, principal, shape.value), now);
      r := Recorded(entry);
    }

    /** The critical section of `record`: refresh or create one row. */
    method Touch(key: string, what: Observed, now: int) returns (entry: Entry)
      requires Valid()
      modifies this`order, this`entries, this`evictedTotal, this`history
      ensures Valid() && history == old(history) + [Hit(key, now, what)]
      ensures key in entries && order != [] && order[|order| - 1] == key && entry == entries[key]
      ensures entry == if key in old(entries)
                       then var e := old(entries)[key]; Entry(e.what, e.occurrences + 1, e.firstSeen, now)
                       else Entry(what, 1, now, now)
    {
      if key in entries {
        entry := Refresh(key, what, now);
      } else {
        entry := Create(key, what, now);
      }
    }

    method Refresh(key: string, what: Observed, now: int) returns (entry: Entry)
      requires Valid() && key in entries
      modifies this`order, this`entries, this`history
      ensures Valid() && history == old(history) + [Hit(key, now, what)]
      ensures key in entries && order == Without(old(order), key) + [key] && entry == entries[key]
      ensures var e := old(entries)[key]; entry == Entry(e.what, e.occurrences + 1, e.firstSeen, now)
    {
      RefreshReflects(history, Hit(key, now, what), cap, order, entries, evictedTotal);
      entry := Refreshed(entries[key], now);
      entries := entries[key := entry];
      order := Without(order, key) + [key];
      history := history + [Hit(key, now, what)];
    }

    method Create(key: string, what: Observed, now: int) returns (entry: Entry)
      requires Valid() && key !in entries
      modifies this`order, this`entries, this`evictedTotal, this`history
      ensures Valid() && history == old(history) + [Hit(key, now, what)]
      ensures key in entries && order != [] && order[|order| - 1] == key && entry == entries[key]
      ensures entry == Entry(what, 1, now, now)
    {
      CreateReflects(history, Hit(key, now, what), cap, order, entries, evictedTotal);
      AllKnown(history, cap, order, entries, evictedTotal);
      entry := Entry(what, 1, now, now);
      ghost var room := Room(order, entries, cap);
      Add(key, entry);
      assert order == room.0 + [key] && entries == room.1[key := entry];
      history := history + [Hit(key, now, what)];
    }

    /** Append a new entry and pop from the front while over the cap. */
    method Add(key: string, entry: Entry)
      requires cap > 0 && |order| <= cap && key !in order
      requires (forall k :: k in order ==> k in entries) && key !in entries
      modifies this`order, this`entries, this`evictedTotal
      ensures var (o, e) := Room(old(order), old(entries), cap); order == o + [key] && entries == e[key := entry]
      ensures evictedTotal == old(evictedTotal) + if |old(order)| == cap then 1 else 0
    {
      order := order + [key];
      entries := entries[key := entry];
      ghost var popped := 0;
      while |order| > cap
        invariant 0 <= popped <= 1
        invariant order == (old(order) + [key])[popped..]
        invariant popped == 1 ==> |old(order)| == cap
        invariant entries == (if popped == 1 then old(entries) - {old(order)[0]} else old(entries))[key := entry]
        invariant evictedTotal == old(evictedTotal) + popped
        decreases |order|
      {
        entries := entries - {order[0]};
        order := order[1..];
        evictedTotal := evictedTotal + 1;
        popped := popped + 1;
      }
    }

    method ListShapes(connection: Option<string>, principal: Option<string>) returns (r: seq<Entry>)
      requires Valid()
      ensures forall k :: k in order ==> k in entries
      ensures multiset(r) == multiset(Rows(order, entries, connection, principal))
      ensures forall i, j :: 0 <= i < j < |r| ==>
                || r[i].occurrences > r[j].occurrences
                || (r[i].occurrences == r[j].occurrences && r[i].firstSeen <= r[j].firstSeen)
    {
      AllKnown(history, cap, order, entries, evictedTotal);
      r := RankedRows(order, entries, connection, principal);
    }

    /** The least recently seen entry with this hash that passes the filters. */
    method Get(hash: string, connection: Option<string>, principal: Option<string>) returns (r: Option<Entry>)
      requires Valid()
      ensures r.None? ==> forall i :: 0 <= i < |order| ==> !Found(order, entries, i, hash, connection, principal)
      ensures r.Some? ==> exists i :: FirstFound(order, entries, i, hash, connection, principal) && r.value == entries[order[i]]
    {
      AllKnown(history, cap, order, entries, evictedTotal);
      r := FirstMatch(order, entries, hash, connection, principal);
    }

    /** The counters account for every entry ever created since the last clear. */
    method Counters() returns (evicted: nat, failed: nat)
      requires Valid()
      ensures failed == failures
      ensures evicted + |order| == Insertions(history, cap) && |order| <= cap
      ensures TotalHits(history, cap, order) + EvictedHits(history, cap) == |history|
    {
      HitsConserved(history, cap);
      KeptDistinct(history, cap);
      evicted, failed := evictedTotal, failures;
    }

    method Clear()
      requires Valid()
      modifies this
      ensures Valid() && history == [] && failures == 0 && enabled == old(enabled)
    {
      order, entries, evictedTotal, failures := [], map[], 0, 0;
      history := [];
    }

    method ClearSync()
      requires Valid()
      modifies this
      ensures Valid() && history == [] && failures == 0 && !enabled
    {
      order, entries, evictedTotal, failures := [], map[], 0, 0;
      enabled := false;
      history := [];
    }
  }
}
