// The cursor of the blast-radius report: pages of the configured principals.
module Paging {
  import opened Json
  import opened StableSort

  /** `configured[offset : offset + size]`. */
  function Page<T>(s: seq<T>, offset: nat, size: nat): seq<T> {
    if offset >= |s| then []
    else if offset + size <= |s| then s[offset..offset + size]
    else s[offset..]
  }

  /** `next_principal_offset`. */
  function Next(n: nat, offset: nat, size: nat): Option<nat> {
    if offset + size < n then Some(offset + size) else None
  }

  /** The offset of request k when each request follows the last one's cursor. */
  function Cursor(n: nat, size: nat, k: nat): Option<nat> {
    if k == 0 then Some(0)
    else
      var last := Cursor(n, size, k - 1);
      if last.Some? then Next(n, last.value, size) else None
  }

  /** What the first k requests evaluate, one after the other. */
  function Collected<T>(s: seq<T>, size: nat, k: nat): seq<T> {
    if k == 0 then []
    else if Cursor(|s|, size, k - 1).Some? then Collected(s, size, k - 1) + Page(s, Cursor(|s|, size, k - 1).value, size)
    else Collected(s, size, k - 1)
  }

  lemma {:induction false} CursorAdvances(n: nat, size: nat, k: nat)
    requires size >= 1
    ensures Cursor(n, size, k).Some? ==> k <= Cursor(n, size, k).value && (k > 0 ==> Cursor(n, size, k).value < n)
  {
    if k > 0 {
      CursorAdvances(n, size, k - 1);
    }
  }

  lemma {:induction false} CursorStuck(n: nat, k: nat)
    requires n > 0
    ensures Cursor(n, 0, k) == Some(0)
  {
    if k > 0 {
      CursorStuck(n, k - 1);
    }
  }

  // Following the cursor ends exactly when pages are not empty, or nothing is configured.
  lemma CursorStopsIff(n: nat, size: nat)
    ensures (exists k :: Cursor(n, size, k).None?) <==> size >= 1 || n == 0
  {
    if size >= 1 {
      CursorAdvances(n, size, n + 1);
      assert Cursor(n, size, n + 1).None?;
    } else if n == 0 {
      assert Cursor(n, size, 0) == Some(0);
      assert Cursor(n, size, 1).None?;
    } else {
      forall k ensures Cursor(n, size, k).Some? {
        CursorStuck(n, k);
      }
    }
  }

  lemma PageExtends<T>(s: seq<T>, offset: nat, size: nat)
    requires offset <= |s|
    ensures s[..offset] + Page(s, offset, size) == if offset + size < |s| then s[..offset + size] else s
  {
  }

  /** The list up to a cursor; without one, all of it. */
  function UpTo<T>(s: seq<T>, at: Option<nat>): seq<T> {
    if at.Some? && at.value <= |s| then s[..at.value] else s
  }

  // The pages so far are the list up to the cursor; at the end, the whole list.
  lemma {:induction false} PagesConcatenate<T>(s: seq<T>, size: nat, k: nat)
    ensures Cursor(|s|, size, k).Some? ==> Cursor(|s|, size, k).value <= |s|
    ensures Collected(s, size, k) == UpTo(s, Cursor(|s|, size, k))
  {
    if k > 0 {
      PagesConcatenate(s, size, k - 1);
      var last := Cursor(|s|, size, k - 1);
      if last.Some? {
        PageExtends(s, last.value, size);
      }
    }
  }

  lemma {:induction false} CollectedOnPage<T>(s: seq<T>, size: nat, k: nat, x: T) returns (j: nat)
    requires x in Collected(s, size, k)
    ensures j < k && Cursor(|s|, size, j).Some? && x in Page(s, Cursor(|s|, size, j).value, size)
  {
    if x in Collected(s, size, k - 1) {
      j := CollectedOnPage(s, size, k - 1, x);
    } else {
      j := k - 1;
    }
  }

  lemma {:induction false} CursorGap(n: nat, size: nat, j: nat, k: nat)
    requires j < k && Cursor(n, size, k).Some?
    ensures Cursor(n, size, j).Some? && Cursor(n, size, j).value + size <= Cursor(n, size, k).value
  {
    if j < k - 1 {
      CursorGap(n, size, j, k - 1);
    }
  }

  predicate OnPage<T(==)>(s: seq<T>, size: nat, k: nat, x: T) {
    Cursor(|s|, size, k).Some? && x in Page(s, Cursor(|s|, size, k).value, size)
  }

  lemma IndexOnPage<T>(s: seq<T>, offset: nat, size: nat, i: nat)
    requires NoDuplicates(s) && i < |s|
    ensures s[i] in Page(s, offset, size) <==> offset <= i < offset + size
  {
    var page := Page(s, offset, size);
    if offset <= i < offset + size {
      assert page[i - offset] == s[i];
    }
    if s[i] in page {
      var a :| 0 <= a < |page| && page[a] == s[i];
      assert s[offset + a] == s[i];
    }
  }

  lemma OnOnePage<T>(s: seq<T>, size: nat, j: nat, k: nat, i: nat)
    requires NoDuplicates(s) && i < |s| && j < k && OnPage(s, size, j, s[i])
    ensures !OnPage(s, size, k, s[i])
  {
    if Cursor(|s|, size, k).Some? {
      CursorGap(|s|, size, j, k);
      IndexOnPage(s, Cursor(|s|, size, j).value, size, i);
      IndexOnPage(s, Cursor(|s|, size, k).value, size, i);
    }
  }

  // With a page size of at least 1 every configured principal is evaluated by
  // exactly one request.
  lemma EachOnOnePage<T>(s: seq<T>, size: nat, x: T) returns (k: nat)
    requires size >= 1 && NoDuplicates(s) && x in s
    ensures OnPage(s, size, k, x) && forall j: nat :: OnPage(s, size, j, x) ==> j == k
  {
    CursorAdvances(|s|, size, |s| + 1);
    PagesConcatenate(s, size, |s| + 1);
    k := CollectedOnPage(s, size, |s| + 1, x);
    var i :| 0 <= i < |s| && s[i] == x;
    forall j: nat | OnPage(s, size, j, x) ensures j == k {
      if j < k {
        OnOnePage(s, size, j, k, i);
      } else if k < j {
        OnOnePage(s, size, k, j, i);
      }
    }
  }
}
