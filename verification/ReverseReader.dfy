// `iter_lines_reverse`: the lines of a file from its end backward, read in
// fixed-size chunks, against the plain reversal of the split file.
module ReverseReader {

  newtype byte = x: int | 0 <= x < 256

  type Bytes = seq<byte>

  const NEWLINE: byte := 10

  /** `bytes.split(b"\n")`: always at least one segment. */
  function Split(s: Bytes): (r: seq<Bytes>)
    ensures |r| > 0
  {
    if s == [] then [[]]
    else
      var rest := Split(s[1..]);
      if s[0] == NEWLINE then [[]] + rest else [[s[0]] + rest[0]] + rest[1..]
  }

  function NonEmpty(ss: seq<Bytes>): seq<Bytes> {
    if ss == [] then []
    else if ss[0] == [] then NonEmpty(ss[1..])
    else [ss[0]] + NonEmpty(ss[1..])
  }

  function Reverse<T>(s: seq<T>): (r: seq<T>)
    ensures |r| == |s|
  {
    if s == [] then [] else Reverse(s[1..]) + [s[0]]
  }

  /** The reference: every non-blank line, last line first. */
  function LinesFromEnd(file: Bytes): seq<Bytes> {
    Reverse(NonEmpty(Split(file)))
  }

  // ------------------------------------------------------------ splitting

  /** The last segment of one list and the first of the other become one. */
  function Join(x: seq<Bytes>, y: seq<Bytes>): (r: seq<Bytes>)
    requires x != [] && y != []
    ensures |r| == |x| + |y| - 1
  {
    x[..|x| - 1] + [x[|x| - 1] + y[0]] + y[1..]
  }

  lemma JoinEmptyFirst(w: seq<Bytes>, y: seq<Bytes>)
    requires w != [] && y != []
    ensures Join([[]] + w, y) == [[]] + Join(w, y)
  {
    var x: seq<Bytes> := [[]] + w;
    assert x[..|x| - 1] == [[]] + w[..|w| - 1];
  }

  lemma JoinGrowFirst(c: byte, w: seq<Bytes>, y: seq<Bytes>)
    requires w != [] && y != []
    ensures Join([[c] + w[0]] + w[1..], y) == [[c] + Join(w, y)[0]] + Join(w, y)[1..]
  {
    var x := [[c] + w[0]] + w[1..];
    if |w| == 1 {
      assert ([c] + w[0]) + y[0] == [c] + (w[0] + y[0]);
    } else {
      assert x[..|x| - 1] == [[c] + w[0]] + w[1..|w| - 1];
      assert Join(w, y)[1..] == w[1..|w| - 1] + [w[|w| - 1] + y[0]] + y[1..];
    }
  }

  // Splitting a concatenation joins the last segment of one with the first of
  // the other and leaves all else alone.
  lemma {:induction false} SplitConcat(a: Bytes, b: Bytes)
    ensures Split(a + b) == Join(Split(a), Split(b))
  {
    var y := Split(b);
    if a == [] {
      assert a + b == b;
      assert [] + y[0] == y[0];
      assert y == [y[0]] + y[1..];
    } else {
      SplitConcat(a[1..], b);
      assert (a + b)[1..] == a[1..] + b;
      if a[0] == NEWLINE {
        JoinEmptyFirst(Split(a[1..]), y);
      } else {
        JoinGrowFirst(a[0], Split(a[1..]), y);
      }
    }
  }

  lemma {:induction false} SplitLine(s: Bytes)
    requires NEWLINE !in s
    ensures Split(s) == [s]
  {
    if s != [] {
      assert s == [s[0]] + s[1..] && s[0] in s;
      SplitLine(s[1..]);
    }
  }

  lemma {:induction false} SegmentsHoldNoNewline(s: Bytes)
    ensures forall i :: 0 <= i < |Split(s)| ==> NEWLINE !in Split(s)[i]
  {
    if s != [] {
      SegmentsHoldNoNewline(s[1..]);
    }
  }

  // The lines of two files with a newline in between are those of the second
  // and then those of the first; a text without newline is one line unless it
  // is blank. This determines the lines of every file.
  lemma LinesOfParts(a: Bytes, b: Bytes)
    ensures LinesFromEnd(a + [10] + b) == LinesFromEnd(b) + LinesFromEnd(a)
    ensures 10 !in a ==> LinesFromEnd(a) == if a == [] then [] else [a]
  {
    var x, y := Split(a), Split(b);
    SplitNewline(b);
    SplitConcat(a, [10] + b);
    assert a + [10] + b == a + ([10] + b);
    JoinEmptyMiddle(x, y);
    NonEmptyConcat(x, y);
    ReverseConcat(NonEmpty(x), NonEmpty(y));
    if 10 !in a {
      SplitLine(a);
      OneLine(a);
    }
  }

  lemma JoinEmptyMiddle(x: seq<Bytes>, y: seq<Bytes>)
    requires x != []
    ensures Join(x, [[]] + y) == x + y
  {
    var n := |x| - 1;
    var z := [[]] + y;
    assert z[0] == [] && z[1..] == y;
    assert x[n] + [] == x[n];
    assert x == x[..n] + [x[n]];
  }

  lemma SplitNewline(b: Bytes)
    ensures Split([10] + b) == [[]] + Split(b)
  {
    assert ([10] + b)[0] == 10 && ([10] + b)[1..] == b;
  }

  lemma OneLine(a: Bytes)
    ensures Reverse(NonEmpty([a])) == if a == [] then [] else [a]
  {
    assert [a][1..] == [] && NonEmpty([a][1..]) == [];
    assert NonEmpty([a]) == if a == [] then [] else [a];
  }

  // Carrying the first segment over to the next chunk loses nothing.
  lemma CarryOver(chunk: Bytes, tail: Bytes)
    ensures Split(chunk + tail) == Split(chunk + Split(tail)[0]) + Split(tail)[1..]
  {
    var carry := Split(tail)[0];
    SegmentsHoldNoNewline(tail);
    SplitLine(carry);
    SplitConcat(chunk, tail);
    SplitConcat(chunk, carry);
  }

  lemma {:induction false} NonEmptyConcat(a: seq<Bytes>, b: seq<Bytes>)
    ensures NonEmpty(a + b) == NonEmpty(a) + NonEmpty(b)
  {
    if a == [] {
      assert a + b == b;
    } else {
      assert (a + b)[1..] == a[1..] + b;
      NonEmptyConcat(a[1..], b);
    }
  }

  lemma {:induction false} ReverseConcat<T>(a: seq<T>, b: seq<T>)
    ensures Reverse(a + b) == Reverse(b) + Reverse(a)
  {
    if a == [] {
      assert a + b == b;
    } else {
      assert (a + b)[1..] == a[1..] + b;
      ReverseConcat(a[1..], b);
    }
  }

  /** The complete lines of the part of the file read so far, last first. */
  function Complete(tail: Bytes): seq<Bytes> {
    Reverse(NonEmpty(Split(tail)[1..]))
  }

  lemma ChunkYields(chunk: Bytes, tail: Bytes)
    ensures var segments := Split(chunk + Split(tail)[0]);
            && Split(chunk + tail)[0] == segments[0]
            && Complete(chunk + tail) == Complete(tail) + Reverse(NonEmpty(segments[1..]))
  {
    var segments, rest := Split(chunk + Split(tail)[0]), Split(tail)[1..];
    CarryOver(chunk, tail);
    assert Split(chunk + tail)[1..] == segments[1..] + rest;
    NonEmptyConcat(segments[1..], rest);
    ReverseConcat(NonEmpty(segments[1..]), NonEmpty(rest));
  }

  lemma LastLine(file: Bytes)
    ensures LinesFromEnd(file) == Complete(file) + (if Split(file)[0] == [] then [] else [Split(file)[0]])
  {
    var s := Split(file);
    assert s == [s[0]] + s[1..];
    NonEmptyConcat([s[0]], s[1..]);
    ReverseConcat(NonEmpty([s[0]]), NonEmpty(s[1..]));
    var only := [s[0]];
    assert only[1..] == [];
  }

  // What has been read so far only fixes a front part of the answer.
  lemma CompleteIsPrefix(file: Bytes, p: nat)
    requires p <= |file|
    ensures Complete(file[p..]) <= LinesFromEnd(file)
  {
    assert file == file[..p] + file[p..];
    ChunkYields(file[..p], file[p..]);
    LastLine(file);
  }

  // An undelimited run is part of one line of the file.
  lemma RunInsideLine(file: Bytes, p: nat)
    requires p <= |file|
    ensures exists i :: 0 <= i < |Split(file)| && |Split(file)[i]| >= |Split(file[p..])[0]|
  {
    var x, y := Split(file[..p]), Split(file[p..]);
    assert file == file[..p] + file[p..];
    SplitConcat(file[..p], file[p..]);
    assert Split(file)[|x| - 1] == x[|x| - 1] + y[0];
  }

  // -------------------------------------------------------------- reader

  /** The file can be read backward within the limits and without changing. */
  ghost predicate Readable(file: Bytes, maxLine: nat, maxTotal: nat, torn: nat -> bool) {
    && |file| <= maxTotal
    && (forall i :: 0 <= i < |Split(file)| ==> |Split(file)[i]| <= maxLine)
    && (forall p :: !torn(p))
  }

  /** Everything the generator yields, and whether it ends by raising
      `AuditFileReadBounded`. `torn(p)` is a short read at offset p. */
  method IterLinesReverse(file: Bytes, chunkSize: nat, maxLine: nat, maxTotal: nat, torn: nat -> bool)
    returns (lines: seq<Bytes>, raised: bool)
    requires chunkSize >= 1
    ensures lines <= LinesFromEnd(file)
    ensures !raised ==> lines == LinesFromEnd(file) && |file| <= maxTotal
    ensures raised ==> !Readable(file, maxLine, maxTotal, torn)
  {
    lines := [];
    var position := |file|;
    var carry: Bytes := [];
    var total := 0;
    while position > 0
      invariant 0 <= position <= |file| && total == |file| - position
      invariant carry == Split(file[position..])[0]
      invariant lines == Complete(file[position..])
      invariant position < |file| ==> total <= maxTotal
    {
      ghost var tail := file[position..];
      var size := if chunkSize < position then chunkSize else position;
      position := position - size;
      CompleteIsPrefix(file, position + size);
      if torn(position) {
        return lines, true;
      }
      var chunk := file[position..position + size];
      total := total + size;
      if total > maxTotal {
        return lines, true;
      }
      var segments := Split(chunk + carry);
      assert file[position..] == chunk + tail;
      ChunkYields(chunk, tail);
      carry := segments[0];
      if |segments| == 1 && |carry| > maxLine {
        RunInsideLine(file, position);
        return lines, true;
      }
      lines := lines + Reverse(NonEmpty(segments[1..]));
    }
    assert file[0..] == file;
    LastLine(file);
    if carry != [] {
      lines := lines + [carry];
    }
    raised := false;
  }
}
