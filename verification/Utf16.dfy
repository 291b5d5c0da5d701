/** Text as the program sees it: sequences of UTF-16 code units, with the code-unit order that
    JavaScript's default sort uses and the decimal rendering of integers. */
module Utf16 {

  type Unit = u: int | 0 <= u < 0x1_0000
  type Str = seq<Unit>

  const MINUS: Unit := 0x2D
  const DOT: Unit := 0x2E
  const DIGIT_0: Unit := 0x30
  const DIGIT_9: Unit := 0x39
  const COLON: Unit := 0x3A
  const AT_SIGN: Unit := 0x40
  const NEWLINE: Unit := 0x0A

  /** The code-unit order of strings. */
  predicate Less(a: Str, b: Str)
  {
    b != [] && (a == [] || a[0] < b[0] || (a[0] == b[0] && Less(a[1..], b[1..])))
  }

  /** a and b agree on their first k units; then a ends, or has the smaller unit. */
  predicate DiffersAt(a: Str, b: Str, k: nat)
  {
    k <= |a| && k < |b| && a[..k] == b[..k] && (k == |a| || a[k] < b[k])
  }

  lemma AgreeInFront(a: Str, b: Str)
    ensures forall k: nat | DiffersAt(a, b, k) && k > 0 :: a != [] && b != [] && a[0] == b[0]
  {
    forall k: nat | DiffersAt(a, b, k) && k > 0 ensures a != [] && b != [] && a[0] == b[0] {
      assert a[..k][0] == a[0] && b[..k][0] == b[0];
    }
  }

  /** The order is the lexicographic one. */
  lemma {:induction false} LessIsLexicographic(a: Str, b: Str)
    ensures Less(a, b) <==> exists k: nat :: DiffersAt(a, b, k)
  {
    if a == [] || b == [] || a[0] != b[0] {
      AgreeInFront(a, b);
      assert Less(a, b) ==> DiffersAt(a, b, 0);
    } else {
      LessIsLexicographic(a[1..], b[1..]);
      if k: nat :| DiffersAt(a[1..], b[1..], k) {
        assert a[..k + 1] == [a[0]] + a[1..][..k] && b[..k + 1] == [b[0]] + b[1..][..k];
        assert DiffersAt(a, b, k + 1);
      }
      if k: nat :| DiffersAt(a, b, k) {
        assert k > 0 && a[1..][..k - 1] == a[..k][1..] && b[1..][..k - 1] == b[..k][1..];
        assert DiffersAt(a[1..], b[1..], k - 1);
      }
    }
  }

  lemma {:induction false} LessIrreflexive(a: Str)
    ensures !Less(a, a)
  {
    if a != [] {
      LessIrreflexive(a[1..]);
    }
  }

  lemma {:induction false} LessTransitive(a: Str, b: Str, c: Str)
    requires Less(a, b) && Less(b, c)
    ensures Less(a, c)
  {
    if a != [] && a[0] == b[0] == c[0] {
      LessTransitive(a[1..], b[1..], c[1..]);
    }
  }

  lemma {:induction false} LessTotal(a: Str, b: Str)
    requires a != b
    ensures Less(a, b) || Less(b, a)
  {
    if a != [] && b != [] && a[0] == b[0] {
      assert a == [a[0]] + a[1..] && b == [b[0]] + b[1..];
      LessTotal(a[1..], b[1..]);
    }
  }

  /** The first position of c in s, or |s|. */
  function IndexOf(c: Unit, s: Str): (i: nat)
    ensures i <= |s|
    ensures c !in s[..i]
    ensures i < |s| ==> s[i] == c
  {
    if s == [] then 0
    else if s[0] == c then 0
    else
      var j := IndexOf(c, s[1..]);
      assert s[..j + 1] == [s[0]] + s[1..][..j];
      j + 1
  }

  lemma {:induction false} IndexOfSeparator(c: Unit, a: Str, b: Str)
    requires c !in a
    ensures IndexOf(c, a + [c] + b) == |a|
  {
    if a != [] {
      assert (a + [c] + b)[1..] == a[1..] + [c] + b;
      IndexOfSeparator(c, a[1..], b);
    }
  }

  lemma IndexOfAbsent(c: Unit, s: Str)
    requires c !in s
    ensures IndexOf(c, s) == |s|
  {
  }

  predicate IsDigit(u: Unit)
  {
    DIGIT_0 <= u <= DIGIT_9
  }

  predicate AllDigits(s: Str)
  {
    forall i | 0 <= i < |s| :: IsDigit(s[i])
  }

  /** Decimal rendering of a natural number, without leading zeros. */
  function NatText(n: nat): (r: Str)
    ensures r != [] && AllDigits(r)
  {
    if n < 10 then [DIGIT_0 + n] else NatText(n / 10) + [DIGIT_0 + n % 10]
  }

  /** The number a digit string denotes. */
  function NatOf(s: Str): nat
    requires AllDigits(s)
  {
    if s == [] then 0 else 10 * NatOf(s[..|s| - 1]) + (s[|s| - 1] - DIGIT_0)
  }

  lemma {:induction false} NatRoundTrip(n: nat)
    ensures NatOf(NatText(n)) == n
  {
    if n >= 10 {
      var r := NatText(n);
      assert r[..|r| - 1] == NatText(n / 10);
      NatRoundTrip(n / 10);
    } else {
      assert NatText(n)[..0] == [];
    }
  }
}
