/** Author identifiers: the 64-bit hash of internal/mapper/jira_to_raw.go.

    A Go string is ranged over by code point, and an ill-formed byte sequence reads as U+FFFD, so
    what HashID sees is a sequence of Unicode scalar values: Dafny's `string`. */
module AuthorHash {
  import opened Int64

  const MULTIPLIER: int := 31
  const TWO_31: int := 0x8000_0000

  /** One round of the loop: multiply, add, and negate a negative value, all in int64. */
  function Round(hash: int, c: char): int {
    var mixed := Wrap64(Wrap64(hash * MULTIPLIER) + c as int);
    if mixed < 0 then Wrap64(-mixed) else mixed
  }

  /** The running hash after the whole of `str`. */
  function Running(str: string): int {
    if str == [] then 0 else Round(Running(str[..|str| - 1]), str[|str| - 1])
  }

  /** `hash & 0x7FFFFFFF` in two's complement keeps the value modulo 2^31, also of a negative hash. */
  function Mask31(hash: int): int {
    hash % TWO_31
  }

  method HashID(str: string) returns (id: int)
    ensures id == Mask31(Running(str))
  {
    if str == "" {
      return 0;
    }
    var hash := 0;
    for i := 0 to |str|
      invariant hash == Running(str[..i])
    {
      assert str[..i + 1][..i] == str[..i];
      hash := Round(hash, str[i]);
    }
    assert str[..|str|] == str;
    return Mask31(hash);
  }

  /** The identifier as a function, for specifications. */
  function IdOf(name: string): (id: int)
    ensures 0 <= id < TWO_31
    ensures (id - Running(name)) % TWO_31 == 0
  {
    Mask31(Running(name))
  }

  // ---------- the exact hash, without a machine word ----------

  /** The base-31 polynomial of the code points. */
  function Poly(str: string): nat {
    if str == [] then 0 else Poly(str[..|str| - 1]) * MULTIPLIER + str[|str| - 1] as int
  }

  /** No round of the loop leaves the int64 range: neither the product, nor the sum, nor a negation. */
  predicate NeverWraps(str: string) {
    str == [] ||
    (NeverWraps(str[..|str| - 1]) &&
     var hash := Running(str[..|str| - 1]);
     && -TWO_63 <= hash * MULTIPLIER < TWO_63
     && 0 <= hash * MULTIPLIER + str[|str| - 1] as int < TWO_63)
  }

  /** h is x or -x modulo 2^64. */
  predicate UpToSign(h: int, x: int) {
    (h - x) % TWO_64 == 0 || (h + x) % TWO_64 == 0
  }

  /** A value that negation in 64 bits does not make positive: non-negative, or -2^63. */
  predicate Folded(h: int) {
    0 <= h < TWO_63 || h == -TWO_63
  }

  /** The value before a negation is congruent to the exact one. */
  lemma MixedCongruent(hash: int, c: int)
    ensures (Wrap64(Wrap64(hash * MULTIPLIER) + c) - (hash * 31 + c)) % TWO_64 == 0
  {
    var product := Wrap64(hash * MULTIPLIER);
    SumOfMultiples(Wrap64(product + c) - (product + c), product - hash * MULTIPLIER);
  }

  lemma NegatedCongruent(mixed: int, x: int)
    requires (mixed - x) % TWO_64 == 0
    ensures (Wrap64(-mixed) + x) % TWO_64 == 0
  {
    NegatedMultiple(mixed - x);
    SumOfMultiples(Wrap64(-mixed) - -mixed, -(mixed - x));
  }

  lemma FoldCongruent(mixed: int, x: int)
    requires (mixed - x) % TWO_64 == 0 && -TWO_63 <= mixed < TWO_63
    ensures var h := if mixed < 0 then Wrap64(-mixed) else mixed; UpToSign(h, x) && Folded(h)
  {
    if mixed < 0 {
      NegatedCongruent(mixed, x);
    }
  }

  lemma NegatedMultiple(a: int)
    requires a % TWO_64 == 0
    ensures (-a) % TWO_64 == 0
  {
  }

  /** How one more code point changes the hash, for every string, also after overflows: the new value is
      31 times the old one plus the code point, or its negation, modulo 2^64, and it is non-negative or
      -2^63. */
  lemma OneMoreCodePoint(str: string, c: char)
    ensures UpToSign(Running(str + [c]), Running(str) * 31 + c as int)
    ensures Folded(Running(str + [c]))
  {
    assert (str + [c])[..|str|] == str;
    var hash := Running(str);
    MixedCongruent(hash, c as int);
    var mixed := Wrap64(Wrap64(hash * MULTIPLIER) + c as int);
    FoldCongruent(mixed, hash * 31 + c as int);
    assert Running(str + [c]) == if mixed < 0 then Wrap64(-mixed) else mixed;
  }

  lemma SumOfMultiples(a: int, b: int)
    requires a % TWO_64 == 0 && b % TWO_64 == 0
    ensures (a + b) % TWO_64 == 0
  {
  }

  lemma EqualIfCongruent(g: int, h: int)
    requires Folded(g) && Folded(h) && (g - h) % TWO_64 == 0
    ensures g == h
  {
  }

  lemma EqualIfOpposite(g: int, h: int)
    requires Folded(g) && Folded(h) && (g + h) % TWO_64 == 0
    ensures g == h
  {
  }

  lemma DifferenceOfMultiples(a: int, b: int)
    requires a % TWO_64 == 0 && b % TWO_64 == 0
    ensures (a - b) % TWO_64 == 0
  {
  }

  /** Those two facts leave only one value. */
  lemma FoldedIsUnique(x: int, g: int, h: int)
    requires UpToSign(g, x) && Folded(g) && UpToSign(h, x) && Folded(h)
    ensures g == h
  {
    if (g - x) % TWO_64 == 0 {
      if (h - x) % TWO_64 == 0 {
        DifferenceOfMultiples(g - x, h - x);
        EqualIfCongruent(g, h);
      } else {
        SumOfMultiples(g - x, h + x);
        EqualIfOpposite(g, h);
      }
    } else if (h - x) % TWO_64 == 0 {
      SumOfMultiples(g + x, h - x);
      EqualIfOpposite(g, h);
    } else {
      DifferenceOfMultiples(g + x, h + x);
      EqualIfCongruent(g, h);
    }
  }

  /** After every round the running hash is non-negative, or is the one value that negation leaves
      negative. */
  lemma RunningRange(str: string)
    ensures 0 <= Running(str) < TWO_63 || Running(str) == -TWO_63
  {
  }

  /** A name never wraps exactly when its polynomial fits, and then the hash is that polynomial. */
  lemma {:induction false} NeverWrapsIffPolyFits(str: string)
    ensures NeverWraps(str) <==> Poly(str) < TWO_63
    ensures NeverWraps(str) ==> Running(str) == Poly(str)
  {
    if str != [] {
      NeverWrapsIffPolyFits(str[..|str| - 1]);
    }
  }

  /** 31^n. */
  function Pow31(n: nat): nat {
    if n == 0 then 1 else MULTIPLIER * Pow31(n - 1)
  }

  /** The largest polynomial of length n, reached when every code point is U+10FFFF. */
  lemma {:induction false} PolyBound(str: string)
    ensures 30 * Poly(str) <= 0x10FFFF * (Pow31(|str|) - 1)
  {
    if str != [] {
      PolyBound(str[..|str| - 1]);
    }
  }

  lemma Pow31Nine()
    ensures Pow31(9) == 26439622160671
  {
    assert Pow31(3) == 29791;
    assert Pow31(6) == 29791 * 29791;
  }

  lemma {:induction false} Pow31Monotone(m: nat, n: nat)
    requires m <= n
    ensures 1 <= Pow31(m) <= Pow31(n)
    decreases n
  {
    if m < n {
      Pow31Monotone(m, n - 1);
    } else if n > 0 {
      Pow31Monotone(n - 1, n - 1);
    }
  }

  /** Names of up to nine code points hash exactly: no round wraps, and the identifier is the
      polynomial modulo 2^31. */
  lemma ShortNamesAreExact(str: string)
    requires |str| <= 9
    ensures NeverWraps(str)
    ensures IdOf(str) == Poly(str) % TWO_31
  {
    PolyBound(str);
    Pow31Monotone(|str|, 9);
    Pow31Nine();
    NeverWrapsIffPolyFits(str);
  }

  /** Nine is the largest such length: a name of ten code points both wraps and gets an identifier
      that is not the polynomial modulo 2^31. */
  lemma TenCodePointsCanWrap() returns (str: string)
    ensures |str| == 10
    ensures !NeverWraps(str)
    ensures IdOf(str) != Poly(str) % TWO_31
  {
    str := Top(10);
    var nine := Top(9);
    PolyTop(9);
    Pow31Nine();
    ShortNamesAreExact(nine);
    NeverWrapsIffPolyFits(nine);
    assert str[..9] == nine && str[9] == '\U{10FFFF}';
    assert Poly(str) == 30438563014548868960;
    NeverWrapsIffPolyFits(str);
    assert Running(str) == Round(Running(nine), str[9]) == 6454925132870234272;
  }

  /** n copies of U+10FFFF. */
  function Top(n: nat): (s: string)
    ensures |s| == n
  {
    if n == 0 then [] else Top(n - 1) + ['\U{10FFFF}']
  }

  lemma {:induction false} PolyTop(n: nat)
    ensures 30 * Poly(Top(n)) == 0x10FFFF * (Pow31(n) - 1)
  {
    if n > 0 {
      assert Top(n)[..n - 1] == Top(n - 1);
      PolyTop(n - 1);
    }
  }

  /** Distinct names may share an identifier, even among names that never wrap. */
  lemma NamesCollide()
    ensures "Aa" != "BB" && IdOf("Aa") == IdOf("BB")
  {
    assert "Aa"[..1] == "A" && "BB"[..1] == "B";
    assert Poly("A") == 65 && Poly("B") == 66;
    ShortNamesAreExact("Aa");
    ShortNamesAreExact("BB");
  }
}
