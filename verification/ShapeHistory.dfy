// What a bounded least-recently-seen record should hold, told from the history
// of hits alone.
module ShapeHistory {
  import opened Json
  import opened Skeleton
  import StableSort

  /** What is stored about a shape when its entry is created. */
  datatype Observed = Observed(hash: string, connection: string, principal: Option<string>, shape: Shape)

  datatype Hit = Hit(key: string, at: int, what: Observed)

  function Without<T(==,!new)>(s: seq<T>, k: T): (r: seq<T>)
    ensures forall x :: x in r <==> x in s && x != k
    ensures k !in s ==> r == s
  {
    if s == [] then []
    else if s[0] == k then Without(s[1..], k)
    else [s[0]] + Without(s[1..], k)
  }

  function LastN<T>(s: seq<T>, n: nat): seq<T> {
    if |s| <= n then s else s[|s| - n..]
  }

  /** The distinct keys of a history, the most recently hit one last. */
  function Recency(h: seq<Hit>): seq<string> {
    if h == [] then []
    else
      var k := h[|h| - 1].key;
      Without(Recency(h[..|h| - 1]), k) + [k]
  }

  /** The last `cap` distinct keys by most recent hit. */
  function Kept(h: seq<Hit>, cap: nat): seq<string> {
    LastN(Recency(h), cap)
  }

  /** The last hit creates an entry rather than refreshing one. */
  predicate Creates(h: seq<Hit>, cap: nat)
    requires h != []
  {
    h[|h| - 1].key !in Kept(h[..|h| - 1], cap)
  }

  function Insertions(h: seq<Hit>, cap: nat): nat {
    if h == [] then 0
    else Insertions(h[..|h| - 1], cap) + if Creates(h, cap) then 1 else 0
  }

  /** The last hit pushes an entry out. */
  predicate Evicts(h: seq<Hit>, cap: nat)
    requires h != []
  {
    Creates(h, cap) && |Kept(h[..|h| - 1], cap)| == cap
  }

  function Evictions(h: seq<Hit>, cap: nat): nat {
    if h == [] then 0
    else Evictions(h[..|h| - 1], cap) + if Evicts(h, cap) then 1 else 0
  }

  /** The hits an entry for `k` has taken since it was last created. */
  function Stretch(h: seq<Hit>, cap: nat, k: string): seq<Hit> {
    if h == [] then []
    else
      var x := h[|h| - 1];
      var was := Stretch(h[..|h| - 1], cap, k);
      if x.key != k then was
      else if Creates(h, cap) then [x]
      else was + [x]
  }

  function EvictedHits(h: seq<Hit>, cap: nat): nat
    requires cap > 0
  {
    if h == [] then 0
    else
      var was := h[..|h| - 1];
      EvictedHits(was, cap) + if Evicts(h, cap) then |Stretch(was, cap, Kept(was, cap)[0])| else 0
  }

  function TotalHits(h: seq<Hit>, cap: nat, keys: seq<string>): nat {
    if keys == [] then 0 else |Stretch(h, cap, keys[0])| + TotalHits(h, cap, keys[1..])
  }

  // ------------------------------------------------- recency, declaratively

  /** Where `k` was hit last; -1 if never. */
  function LastHit(h: seq<Hit>, k: string): int {
    if h == [] then -1
    else if h[|h| - 1].key == k then |h| - 1
    else LastHit(h[..|h| - 1], k)
  }

  ghost predicate Increasing(s: seq<string>, h: seq<Hit>) {
    forall i, j :: 0 <= i < j < |s| ==> LastHit(h, s[i]) < LastHit(h, s[j])
  }

  lemma {:induction false} WithoutIncreasing(s: seq<string>, k: string, h: seq<Hit>)
    requires Increasing(s, h)
    ensures Increasing(Without(s, k), h)
  {
    if s != [] {
      WithoutIncreasing(s[1..], k, h);
      var rest := Without(s[1..], k);
      forall j | 0 <= j < |rest|
        ensures LastHit(h, s[0]) < LastHit(h, rest[j])
      {
        assert rest[j] in s[1..];
      }
    }
  }

  lemma {:induction false} RecencyMembers(h: seq<Hit>, k: string)
    ensures k in Recency(h) <==> LastHit(h, k) >= 0
    ensures LastHit(h, k) < |h|
  {
    if h != [] {
      RecencyMembers(h[..|h| - 1], k);
    }
  }

  // `Recency` lists each hit key once, in the order of its last hit.
  lemma {:induction false} RecencyOrdersByLastHit(h: seq<Hit>)
    ensures forall k :: k in Recency(h) <==> LastHit(h, k) >= 0
    ensures Increasing(Recency(h), h) && StableSort.NoDuplicates(Recency(h))
  {
    forall k
      ensures k in Recency(h) <==> LastHit(h, k) >= 0
    {
      RecencyMembers(h, k);
    }
    if h != [] {
      var n := |h| - 1;
      var k := h[n].key;
      RecencyOrdersByLastHit(h[..n]);
      var kept := Without(Recency(h[..n]), k);
      WithoutIncreasing(Recency(h[..n]), k, h[..n]);
      forall i | 0 <= i < |kept|
        ensures LastHit(h, kept[i]) == LastHit(h[..n], kept[i]) < n
      {
        assert kept[i] in kept;
        RecencyMembers(h[..n], kept[i]);
      }
    }
  }

  // ---------------------------------------------------- one hit at a time

  // How one more hit changes the kept keys: a refresh moves its key to the end,
  // a creation appends it and drops the oldest key of a full record.
  lemma KeptStep(h: seq<Hit>, x: Hit, cap: nat)
    requires cap > 0
    ensures var was := Kept(h, cap);
            Kept(h + [x], cap) ==
            if x.key in was then Without(was, x.key) + [x.key]
            else if |was| == cap then was[1..] + [x.key]
            else was + [x.key]
    ensures |Kept(h, cap)| <= cap
  {
    var r, k := Recency(h), x.key;
    assert (h + [x])[..|h|] == h;
    assert Recency(h + [x]) == Without(r, k) + [k];
    RecencyOrdersByLastHit(h);
    LastNStep(r, k, cap);
  }

  lemma LastNStep<T(!new)>(r: seq<T>, k: T, cap: nat)
    requires cap > 0 && StableSort.NoDuplicates(r)
    ensures var was := LastN(r, cap);
            LastN(Without(r, k) + [k], cap) ==
            if k in was then Without(was, k) + [k]
            else if |was| == cap then was[1..] + [k]
            else was + [k]
  {
    if |r| <= cap {
      if k in r {
        WithoutShrinks(r, k);
      }
    } else {
      var cut := |r| - cap;
      assert r == r[..cut] + r[cut..];
      LastNStepFull(r[..cut], r[cut..], k);
    }
  }

  lemma LastNSuffix<T>(a: seq<T>, b: seq<T>)
    ensures LastN(a + b, |b|) == b
  {
  }

  lemma DistinctSplits<T>(a: seq<T>, b: seq<T>, k: T)
    requires StableSort.NoDuplicates(a + b) && k in b
    ensures StableSort.NoDuplicates(b) && k !in a
  {
    var all := a + b;
    assert forall i :: 0 <= i < |b| ==> b[i] == all[|a| + i];
    assert forall i :: 0 <= i < |a| ==> a[i] == all[i];
  }

  lemma LastNStepFull<T(!new)>(gone: seq<T>, was: seq<T>, k: T)
    requires was != [] && StableSort.NoDuplicates(gone + was)
    ensures LastN(Without(gone + was, k) + [k], |was|) ==
            if k in was then Without(was, k) + [k] else was[1..] + [k]
  {
    WithoutSplits(gone, was, k);
    if k in was {
      DistinctSplits(gone, was, k);
      WithoutShrinks(was, k);
      LastNMoved(Without(gone, k), Without(was, k), k);
    } else {
      WithoutAbsent(was, k);
      LastNPushed(Without(gone, k), was, k);
    }
  }

  lemma LastNMoved<T>(g: seq<T>, w: seq<T>, k: T)
    ensures LastN(g + w + [k], |w| + 1) == w + [k]
  {
    LastNSuffix(g, w + [k]);
    assert g + w + [k] == g + (w + [k]);
  }

  lemma LastNPushed<T>(g: seq<T>, w: seq<T>, k: T)
    requires w != []
    ensures LastN(g + w + [k], |w|) == w[1..] + [k]
  {
    LastNSuffix(g + [w[0]], w[1..] + [k]);
    assert g + w + [k] == (g + [w[0]]) + (w[1..] + [k]);
  }

  lemma {:induction false} WithoutAbsent<T(!new)>(s: seq<T>, k: T)
    requires k !in s
    ensures Without(s, k) == s
  {
    if s != [] {
      WithoutAbsent(s[1..], k);
    }
  }

  lemma {:induction false} WithoutSplits<T(!new)>(s: seq<T>, t: seq<T>, k: T)
    ensures Without(s + t, k) == Without(s, k) + Without(t, k)
  {
    if s == [] {
      assert s + t == t;
    } else {
      assert (s + t)[1..] == s[1..] + t;
      WithoutSplits(s[1..], t, k);
    }
  }

  lemma {:induction false} WithoutShrinks<T(!new)>(s: seq<T>, k: T)
    requires StableSort.NoDuplicates(s) && k in s
    ensures |Without(s, k)| == |s| - 1
  {
    if s[0] == k {
      assert k !in s[1..];
    } else {
      WithoutShrinks(s[1..], k);
    }
  }

  lemma KeptDistinct(h: seq<Hit>, cap: nat)
    ensures StableSort.NoDuplicates(Kept(h, cap)) && |Kept(h, cap)| <= cap
  {
    RecencyOrdersByLastHit(h);
  }

  // ------------------------------------------------------- conservation

  lemma {:induction false} TotalHitsUnchanged(h: seq<Hit>, x: Hit, cap: nat, keys: seq<string>)
    requires x.key !in keys
    ensures TotalHits(h + [x], cap, keys) == TotalHits(h, cap, keys)
  {
    if keys != [] {
      assert (h + [x])[..|h|] == h;
      TotalHitsUnchanged(h, x, cap, keys[1..]);
    }
  }

  lemma {:induction false} TotalHitsAppend(h: seq<Hit>, cap: nat, keys: seq<string>, k: string)
    ensures TotalHits(h, cap, keys + [k]) == TotalHits(h, cap, keys) + |Stretch(h, cap, k)|
  {
    if keys == [] {
      assert [] + [k] == [k];
    } else {
      assert (keys + [k])[1..] == keys[1..] + [k];
      TotalHitsAppend(h, cap, keys[1..], k);
    }
  }

  lemma {:induction false} TotalHitsWithout(h: seq<Hit>, cap: nat, keys: seq<string>, k: string)
    requires StableSort.NoDuplicates(keys) && k in keys
    ensures TotalHits(h, cap, Without(keys, k)) + |Stretch(h, cap, k)| == TotalHits(h, cap, keys)
  {
    if keys[0] == k {
      assert k !in keys[1..];
    } else {
      TotalHitsWithout(h, cap, keys[1..], k);
      var r := Without(keys, k);
      assert r[0] == keys[0] && r[1..] == Without(keys[1..], k);
    }
  }

  // Hits are conserved: what the kept entries took plus what went out with the
  // evicted ones is every hit; and every entry created is kept or was evicted.
  lemma {:induction false} HitsConserved(h: seq<Hit>, cap: nat)
    requires cap > 0
    ensures TotalHits(h, cap, Kept(h, cap)) + EvictedHits(h, cap) == |h|
    ensures Evictions(h, cap) + |Kept(h, cap)| == Insertions(h, cap)
  {
    if h != [] {
      var n := |h| - 1;
      var was, x := h[..n], h[n];
      assert h == was + [x];
      HitsConserved(was, cap);
      KeptStep(was, x, cap);
      KeptDistinct(was, cap);
      var keys := Kept(was, cap);
      if x.key in keys {
        WithoutShrinks(keys, x.key);
        TotalHitsWithout(was, cap, keys, x.key);
        TotalHitsUnchanged(was, x, cap, Without(keys, x.key));
        TotalHitsAppend(h, cap, Without(keys, x.key), x.key);
      } else if |keys| == cap {
        TotalHitsUnchanged(was, x, cap, keys[1..]);
        TotalHitsAppend(h, cap, keys[1..], x.key);
      } else {
        TotalHitsUnchanged(was, x, cap, keys);
        TotalHitsAppend(h, cap, keys, x.key);
      }
    }
  }
}
