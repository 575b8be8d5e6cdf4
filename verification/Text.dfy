// Decimal numerals and suffixed names, shared by the parameter allocator and
// the alias canonicalizer.
module Text {

  predicate IsDigit(c: char) {
    '0' <= c <= '9'
  }

  function Digit(d: nat): char
    requires d < 10
  {
    "0123456789"[d]
  }

  /** The usual decimal numeral, as Python renders an int in an f-string. */
  function Decimal(n: nat): (s: string)
    ensures |s| > 0
    ensures forall i :: 0 <= i < |s| ==> IsDigit(s[i])
  {
    if n < 10 then [Digit(n)] else Decimal(n / 10) + [Digit(n % 10)]
  }

  /** The number a string of digits stands for. */
  function Read(s: string): int {
    if s == [] then 0 else 10 * Read(s[..|s| - 1]) + (s[|s| - 1] as int - '0' as int)
  }

  // A numeral reads as its number and starts with no superfluous zero.
  lemma {:induction false} DecimalReads(n: nat)
    ensures Read(Decimal(n)) == n
    ensures n > 0 ==> Decimal(n)[0] != '0'
  {
    var s := Decimal(n);
    if n < 10 {
      assert s[..0] == [];
    } else {
      DecimalReads(n / 10);
      assert s[..|s| - 1] == Decimal(n / 10) && s[0] == Decimal(n / 10)[0];
    }
  }

  lemma {:induction false} DecimalInjective(a: nat, b: nat)
    requires Decimal(a) == Decimal(b)
    ensures a == b
  {
    var s, t := Decimal(a), Decimal(b);
    assert s[|s| - 1] == Digit(a % 10) && t[|t| - 1] == Digit(b % 10);
    if a >= 10 && b >= 10 {
      assert s[..|s| - 1] == Decimal(a / 10) && t[..|t| - 1] == Decimal(b / 10);
      DecimalInjective(a / 10, b / 10);
    }
  }

  /** `stem_k`: how a repeated stem is told apart. */
  function Suffixed(stem: string, k: nat): string {
    stem + "_" + Decimal(k)
  }

  // A numeral holds no underscore, so the last underscore splits the name.
  lemma SuffixedInjective(s: string, j: nat, t: string, k: nat)
    requires Suffixed(s, j) == Suffixed(t, k)
    ensures s == t && j == k
  {
    var x, y := Suffixed(s, j), Suffixed(t, k);
    var dj, dk := Decimal(j), Decimal(k);
    assert x[|s|] == '_' && y[|t|] == '_';
    assert |s| == |t|;
    assert s == x[..|s|] && t == y[..|t|];
    assert dj == x[|s| + 1..] && dk == y[|t| + 1..];
    DecimalInjective(j, k);
  }

  /** `#k`, the positional token that stands for the k-th alias. */
  function Token(k: nat): string {
    "#" + Decimal(k)
  }

  lemma TokenInjective(j: nat, k: nat)
    requires Token(j) == Token(k)
    ensures j == k
  {
    assert Token(j)[1..] == Decimal(j) && Token(k)[1..] == Decimal(k);
    DecimalInjective(j, k);
  }
}
