/** Facts about digits, sequences and quotients that several modules use. */
module Helpers {

  // ----- Digits -----

  predicate IsDigit(c: char)
  {
    '0' <= c <= '9'
  }

  predicate AllDigits(s: string)
  {
    forall i | 0 <= i < |s| :: IsDigit(s[i])
  }

  // ----- Sequences -----

  lemma Assoc<T>(a: seq<T>, b: seq<T>, c: seq<T>)
    ensures a + (b + c) == a + b + c
  {
  }

  lemma SplitLast<T>(s: seq<T>)
    requires s != []
    ensures s == s[..|s| - 1] + [s[|s| - 1]]
  {
  }

  // ----- Reals -----

  function Max(x: real, y: real): real
  {
    if x < y then y else x
  }

  lemma QuotientAtMost(x: real, d: real, k: real)
    requires d > 0.0
    ensures x / d <= k <==> x <= k * d
  {
    assert x == (x / d) * d;
    if x / d <= k {
      assert (k - x / d) * d >= 0.0;
    } else {
      assert (x / d - k) * d > 0.0;
    }
  }

  lemma QuotientAtLeast(x: real, d: real, k: real)
    requires d > 0.0
    ensures x / d >= k <==> x >= k * d
  {
    assert x == (x / d) * d;
    if x / d >= k {
      assert (x / d - k) * d >= 0.0;
    } else {
      assert (k - x / d) * d > 0.0;
    }
  }
}
