/** The check character of an identity-card number, core/ocr/idcard.py (GB 11643-1999). */
module IdCard {
  import opened PyText

  const CHECK := "10X98765432"
  const WEIGHTS := [7, 9, 10, 5, 8, 4, 2, 1, 6, 3, 7, 9, 10, 5, 8, 4, 2]

  predicate IsDigit(c: char) {
    '0' <= c <= '9'
  }

  function Digit(c: char): (d: int)
    requires IsDigit(c)
    ensures 0 <= d <= 9
  {
    c as int - '0' as int
  }

  function Smaller(a: int, b: int): int {
    if a < b then a else b
  }

  /** `int` refuses every character but a digit. */
  predicate BodyIsDigits(card: string) {
    forall i :: 0 <= i < Smaller(17, |card|) ==> IsDigit(card[i])
  }

  /** The weighted sum of the first `n` characters. */
  function Dot(card: string, n: nat): (sum: int)
    requires n <= 17 && n <= |card|
    requires forall i :: 0 <= i < n ==> IsDigit(card[i])
    ensures sum >= 0
  {
    if n == 0 then 0 else Dot(card, n - 1) + Digit(card[n - 1]) * Weight(n - 1)
  }

  function Weight(i: nat): (w: int)
    requires i < 17
    ensures 1 <= w <= 10
  {
    WEIGHTS[i]
  }

  /** `verify`; `None` is the exception for a character that is not a digit. */
  function Verify(card: string): Option<bool> {
    if !BodyIsDigits(card) then None
    else
      var check := CHECK[Dot(card, Smaller(17, |card|)) % 11];
      Some(|card| > 17 && check == card[|card| - 1])
  }

  // ---- The reference: ISO 7064, MOD 11-2 ----

  /** The recursive method of the standard, over the first `n` characters. */
  function Recursive(card: string, n: nat): int
    requires n <= |card| && forall i :: 0 <= i < n ==> IsDigit(card[i])
  {
    if n == 0 then 0 else (2 * (Recursive(card, n - 1) + Digit(card[n - 1]))) % 11
  }

  predicate IsCheck(c: char) {
    IsDigit(c) || c == 'X'
  }

  function CheckValue(c: char): int
    requires IsCheck(c)
  {
    if c == 'X' then 10 else Digit(c)
  }

  /** Seventeen digits and a check character that brings the sum to one. */
  predicate Conforms(card: string) {
    && |card| == 18
    && BodyIsDigits(card)
    && IsCheck(card[17])
    && (Recursive(card, 17) + CheckValue(card[17])) % 11 == 1
  }

  /** The same without reducing on the way. */
  function Unreduced(card: string, n: nat): int
    requires n <= |card| && forall i :: 0 <= i < n ==> IsDigit(card[i])
  {
    if n == 0 then 0 else 2 * (Unreduced(card, n - 1) + Digit(card[n - 1]))
  }

  lemma DoubleRest(x: int, d: int)
    ensures (2 * (x % 11 + d)) % 11 == (2 * (x + d)) % 11
  {
    var q := x / 11;
    assert 2 * (x + d) == 2 * (x % 11 + d) + 11 * (2 * q);
    SameRest(2 * (x % 11 + d), 2 * q);
  }

  lemma SameRest(x: int, q: int)
    ensures (x + 11 * q) % 11 == x % 11
  {
  }

  lemma {:induction false} RecursiveIsRest(card: string, n: nat)
    requires n <= |card| && forall i :: 0 <= i < n ==> IsDigit(card[i])
    ensures Recursive(card, n) == Unreduced(card, n) % 11
  {
    if n > 0 {
      RecursiveIsRest(card, n - 1);
      DoubleRest(Unreduced(card, n - 1), Digit(card[n - 1]));
    }
  }

  /** The powers of two by which the recursive method multiplies the digits. */
  function Power(n: nat): int {
    if n == 0 then 1 else 2 * Power(n - 1)
  }

  /** The weights of the table are the powers of two modulo 11. */
  lemma WeightIsPower(i: nat)
    requires i < 17
    ensures Power(17 - i) % 11 == Weight(i)
  {
    assert Power(4) == 16;
    assert Power(8) == 256;
    assert Power(12) == 4096;
    assert Power(16) == 65536;
  }

  function Powers(card: string, n: nat, e: nat): int
    requires n <= |card| && n <= e && forall i :: 0 <= i < n ==> IsDigit(card[i])
  {
    if n == 0 then 0 else Powers(card, n - 1, e) + Digit(card[n - 1]) * Power(e - (n - 1))
  }

  lemma {:induction false} PowersDouble(card: string, n: nat, e: nat)
    requires n <= |card| && n <= e && forall i :: 0 <= i < n ==> IsDigit(card[i])
    ensures Powers(card, n, e + 1) == 2 * Powers(card, n, e)
  {
    if n > 0 {
      PowersDouble(card, n - 1, e);
    }
  }

  lemma {:induction false} UnreducedIsPowers(card: string, n: nat)
    requires n <= |card| && forall i :: 0 <= i < n ==> IsDigit(card[i])
    ensures Unreduced(card, n) == Powers(card, n, n)
  {
    if n > 0 {
      UnreducedIsPowers(card, n - 1);
      PowersDouble(card, n - 1, n - 1);
      assert Power(1) == 2;
    }
  }

  lemma {:induction false} PowersAreWeights(card: string, n: nat)
    requires n <= 17 && n <= |card| && forall i :: 0 <= i < n ==> IsDigit(card[i])
    ensures Powers(card, n, 17) % 11 == Dot(card, n) % 11
  {
    if n > 0 {
      PowersAreWeights(card, n - 1);
      WeightIsPower(n - 1);
      TermRest(Powers(card, n - 1, 17), Dot(card, n - 1), Digit(card[n - 1]), Power(18 - n), Weight(n - 1));
    }
  }

  lemma TermRest(a: int, b: int, d: int, p: int, w: int)
    requires a % 11 == b % 11 && p % 11 == w % 11
    ensures (a + d * p) % 11 == (b + d * w) % 11
  {
    var q, r := (a - b) / 11, (p - w) / 11;
    assert a == b + 11 * q && p == w + 11 * r;
    assert d * p == d * w + 11 * (d * r) by {
      Distribute(d, w, r);
    }
    SameRest(b + d * w, q + d * r);
  }

  lemma Distribute(d: int, w: int, r: int)
    ensures d * (w + 11 * r) == d * w + 11 * (d * r)
  {
  }

  /** The table look-up is the recursive method of the standard, for every eighteen-character number. */
  lemma VerifyIsStandard(card: string)
    requires |card| == 18
    ensures Verify(card) == Some(true) <==> Conforms(card)
  {
    if BodyIsDigits(card) {
      RecursiveIsRest(card, 17);
      UnreducedIsPowers(card, 17);
      PowersAreWeights(card, 17);
    }
  }

  /** Shorter numbers are refused, longer ones judged by their first seventeen characters and their last. */
  lemma VerifyLength(card: string)
    ensures |card| < 18 ==> Verify(card) != Some(true)
    ensures |card| >= 18 ==> Verify(card) == Verify(card[..17] + [card[|card| - 1]])
  {
    if |card| >= 18 {
      var short := card[..17] + [card[|card| - 1]];
      assert forall i :: 0 <= i < 17 ==> short[i] == card[i];
      if BodyIsDigits(card) {
        SameDot(card, short, 17);
      }
    }
  }

  lemma {:induction false} SameDot(a: string, b: string, n: nat)
    requires n <= 17 && n <= |a| && n <= |b|
    requires forall i :: 0 <= i < n ==> IsDigit(a[i]) && b[i] == a[i]
    ensures Dot(a, n) == Dot(b, n)
  {
    if n > 0 {
      SameDot(a, b, n - 1);
    }
  }

  // ---- What the check character detects ----

  lemma {:induction false} DotUpdate(card: string, i: nat, c: char, n: nat)
    requires i < |card| && n <= 17 && n <= |card| && IsDigit(c)
    requires forall j :: 0 <= j < n ==> IsDigit(card[j])
    ensures Dot(card[i := c], n)
      == Dot(card, n) + if i < n then (Digit(c) - Digit(card[i])) * Weight(i) else 0
  {
    if n > 0 {
      DotUpdate(card, i, c, n - 1);
      if i == n - 1 {
        Difference(Digit(c), Digit(card[i]), Weight(i));
      }
    }
  }

  lemma Difference(a: int, b: int, w: int)
    ensures a * w == b * w + (a - b) * w
  {
  }

  lemma NoZeroDivisors(a: int, w: int)
    requires -9 <= a <= 9 && 1 <= w <= 10
    ensures (a * w) % 11 == 0 <==> a == 0
  {
    if w <= 5 {
      assert w == 1 || w == 2 || w == 3 || w == 4 || w == 5;
    } else {
      assert w == 6 || w == 7 || w == 8 || w == 9 || w == 10;
    }
  }

  lemma RestsDiffer(x: int, y: int)
    ensures x % 11 == y % 11 <==> (y - x) % 11 == 0
  {
    var r, q := y % 11 - x % 11, y / 11 - x / 11;
    assert y - x == r + 11 * q;
    SameRest(r, q);
  }

  /** A single wrong digit is always found. */
  lemma WrongDigitIsFound(card: string, i: nat, c: char)
    requires |card| == 18 && Verify(card) == Some(true)
    requires i < 17 && IsDigit(c) && c != card[i]
    ensures Verify(card[i := c]) == Some(false)
  {
    DotUpdate(card, i, c, 17);
    NoZeroDivisors(Digit(c) - Digit(card[i]), Weight(i));
    RestsDiffer(Dot(card, 17), Dot(card[i := c], 17));
  }

  /** So is a wrong check character: each body has exactly one. */
  lemma WrongCheckIsFound(card: string, c: char)
    requires |card| == 18 && Verify(card) == Some(true) && c != card[17]
    ensures Verify(card[17 := c]) == Some(false)
  {
    SameDot(card, card[17 := c], 17);
  }

  function Swap(card: string, i: nat, j: nat): string
    requires i < |card| && j < |card|
  {
    card[i := card[j]][j := card[i]]
  }

  lemma SwapTerm(a: int, b: int, v: int, w: int)
    ensures (b - a) * v + (a - b) * w == (b - a) * (v - w)
  {
  }

  lemma NoZeroDivisorsSigned(a: int, w: int)
    requires -9 <= a <= 9 && -9 <= w <= 9
    ensures (a * w) % 11 == 0 <==> a == 0 || w == 0
  {
    if w > 0 {
      NoZeroDivisors(a, w);
    } else if w < 0 {
      NoZeroDivisors(-a, -w);
      assert (-a) * (-w) == a * w;
    }
  }

  /** Two swapped body digits are found exactly when they differ and do not stand ten places apart. */
  lemma SwapIsFoundIff(card: string, i: nat, j: nat)
    requires |card| == 18 && Verify(card) == Some(true) && i < j < 17
    ensures Verify(Swap(card, i, j)) == Some(false) <==> card[i] != card[j] && j - i != 10
    ensures Verify(Swap(card, i, j)).Some?
  {
    var once, twice := card[i := card[j]], Swap(card, i, j);
    DotUpdate(card, i, card[j], 17);
    DotUpdate(once, j, card[i], 17);
    var a, b := Digit(card[i]), Digit(card[j]);
    SwapTerm(a, b, Weight(i), Weight(j));
    NoZeroDivisorsSigned(b - a, Weight(i) - Weight(j));
    RestsDiffer(Dot(card, 17), Dot(twice, 17));
    CheckShows(Dot(card, 17) % 11, card[17]);
    CheckShows(Dot(twice, 17) % 11, card[17]);
  }

  /** The table of check characters solves the congruence of the standard. */
  lemma CheckShows(s: int, c: char)
    requires 0 <= s < 11
    ensures CHECK[s] == c <==> IsCheck(c) && (s + CheckValue(c)) % 11 == 1
  {
  }
}
