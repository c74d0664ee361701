/**
  The Luhn check of the card-number detector (Annex B of ISO/IEC 7812-1).
 */
module Luhn {
  import opened Helpers

  /** `re.sub(r"[^0-9]", "", digits)`. */
  function DigitsOf(s: string): string
  {
    if s == "" then "" else (if IsDigit(s[0]) then [s[0]] else "") + DigitsOf(s[1..])
  }

  lemma {:induction false} DigitsOfSpec(s: string)
    ensures AllDigits(DigitsOf(s))
    ensures AllDigits(s) ==> DigitsOf(s) == s
  {
    if s != "" {
      DigitsOfSpec(s[1..]);
    }
  }

  /** What is kept of a text is kept of its parts, digit by digit. */
  lemma {:induction false} DigitsOfConcat(a: string, b: string)
    ensures DigitsOf(a + b) == DigitsOf(a) + DigitsOf(b)
  {
    if a == "" {
      assert a + b == b;
    } else {
      DigitsOfConcat(a[1..], b);
      assert (a + b)[1..] == a[1..] + b;
      Assoc(if IsDigit(a[0]) then [a[0]] else "", DigitsOf(a[1..]), DigitsOf(b));
    }
  }

  lemma DigitsOfOne(c: char)
    ensures DigitsOf([c]) == if '0' <= c <= '9' then [c] else ""
  {
    assert [c][1..] == "";
  }

  function Value(c: char): nat
    requires IsDigit(c)
  {
    c as int - '0' as int
  }

  /** The weight of a digit: doubled digits have their own digits added up. */
  function Weight(d: nat, doubled: bool): nat
    requires d < 10
  {
    if !doubled then d else if 2 * d > 9 then 2 * d - 9 else 2 * d
  }

  /** Counting from the right, every second digit is doubled, so the check digit is not. */
  function Sum(s: string): nat
    requires AllDigits(s)
  {
    if s == "" then 0 else Weight(Value(s[0]), |s| % 2 == 0) + Sum(s[1..])
  }

  predicate Valid(s: string)
    requires AllDigits(s)
  {
    13 <= |s| <= 19 && Sum(s) % 10 == 0
  }

  /** Acceptance of a text with separators. */
  predicate Accepts(text: string)
  {
    AllDigits(DigitsOf(text)) && Valid(DigitsOf(text))
  }

  /** `luhn_valid`: strip the separators, then one pass from the left. */
  method LuhnValid(digits: string) returns (valid: bool)
    ensures valid == Accepts(digits)
  {
    DigitsOfSpec(digits);
    var s := DigitsOf(digits);
    if !(13 <= |s| <= 19) {
      return false;
    }
    var total := Checksum(s);
    valid := total % 10 == 0;
  }

  /** The pass over the digits, doubling every second one. */
  method Checksum(s: string) returns (total: int)
    requires AllDigits(s) && 2 <= |s|
    ensures total == Sum(s)
  {
    total := 0;
    var parity := (|s| - 2) % 2;
    for i := 0 to |s|
      invariant total + Sum(s[i..]) == Sum(s)
    {
      SumFrom(s, i, parity);
      var d := Value(s[i]);
      if i % 2 == parity {
        d := d * 2;
        if d > 9 {
          d := d - 9;
        }
      }
      total := total + d;
    }
  }

  lemma SumFrom(s: string, i: nat, parity: int)
    requires AllDigits(s) && 2 <= |s| && i < |s| && parity == (|s| - 2) % 2
    ensures Sum(s[i..]) == Weight(Value(s[i]), i % 2 == parity) + Sum(s[i + 1..])
  {
    SameParity(|s|, i);
    assert s[i..][0] == s[i] && s[i..][1..] == s[i + 1..];
  }

  lemma SameParity(n: nat, i: nat)
    requires 2 <= n && i < n
    ensures i % 2 == (n - 2) % 2 <==> (n - i) % 2 == 0
  {
  }

  // ----- The sum as the standard describes it -----

  /** From the right, every second digit counts as the digits of its double. */
  function FromRight(s: string, doubled: bool): nat
    requires AllDigits(s)
  {
    if s == "" then 0
    else
      var d := s[|s| - 1] as int - '0' as int;
      (if doubled then 2 * d / 10 + 2 * d % 10 else d) + FromRight(s[..|s| - 1], !doubled)
  }

  lemma WeightIs(c: char, doubled: bool)
    requires IsDigit(c)
    ensures Weight(Value(c), doubled) ==
            var d := c as int - '0' as int; if doubled then 2 * d / 10 + 2 * d % 10 else d
  {
  }

  lemma {:induction false} LeftmostFromRight(s: string, doubled: bool)
    requires AllDigits(s) && s != ""
    ensures FromRight(s, doubled) == Weight(Value(s[0]), doubled == (|s| % 2 == 1)) + FromRight(s[1..], doubled)
  {
    if |s| == 1 {
      WeightIs(s[0], doubled);
      assert s[..0] == s[1..];
    } else {
      LeftmostFromRight(s[..|s| - 1], !doubled);
      assert s[..|s| - 1][1..] == s[1..][..|s| - 2];
    }
  }

  lemma {:induction false} SumIsFromRight(s: string)
    requires AllDigits(s)
    ensures Sum(s) == FromRight(s, false)
  {
    if s != "" {
      LeftmostFromRight(s, false);
      SumIsFromRight(s[1..]);
    }
  }

  /** A text is accepted exactly when its digits are 13 to 19 and their sum from the right ends in zero. */
  lemma AcceptsIff(text: string)
    ensures AllDigits(DigitsOf(text))
    ensures Accepts(text) <==> 13 <= |DigitsOf(text)| <= 19 && FromRight(DigitsOf(text), false) % 10 == 0
  {
    DigitsOfSpec(text);
    SumIsFromRight(DigitsOf(text));
  }

  // ----- What the check detects -----

  /** The digit at `i` is doubled when an odd number of digits follows it. */
  predicate DoubledAt(s: string, i: nat)
    requires i < |s|
  {
    (|s| - i) % 2 == 0
  }

  /** Replacing one digit changes the sum by the difference of the two weights. */
  lemma {:induction false} SumUpdate(s: string, i: nat, c: char)
    requires AllDigits(s) && i < |s| && IsDigit(c)
    ensures AllDigits(s[i := c])
    ensures Sum(s[i := c]) - Weight(Value(c), DoubledAt(s, i)) == Sum(s) - Weight(Value(s[i]), DoubledAt(s, i))
  {
    var t := s[i := c];
    if i == 0 {
      assert t[1..] == s[1..];
    } else {
      SumUpdate(s[1..], i - 1, c);
      assert t[1..] == s[1..][i - 1 := c];
    }
  }

  /** Any single wrong digit in a valid number is detected. */
  lemma SingleErrorDetected(s: string, i: nat, c: char)
    requires AllDigits(s) && Valid(s) && i < |s| && IsDigit(c) && c != s[i]
    ensures AllDigits(s[i := c]) && !Valid(s[i := c])
  {
    SumUpdate(s, i, c);
    var change := Weight(Value(c), DoubledAt(s, i)) - Weight(Value(s[i]), DoubledAt(s, i));
    WeightsDiffer(Value(c), Value(s[i]), DoubledAt(s, i));
    AddMultiple(Sum(s), change);
  }

  lemma WeightsDiffer(x: nat, y: nat, doubled: bool)
    requires x < 10 && y < 10 && x != y
    ensures (Weight(x, doubled) - Weight(y, doubled)) % 10 != 0
  {
    var change := Weight(x, doubled) - Weight(y, doubled);
    assert change != 0 && -10 < change < 10;
  }

  function Swap(s: string, i: nat): string
    requires i + 1 < |s|
  {
    s[i := s[i + 1]][i + 1 := s[i]]
  }

  lemma SwapSum(s: string, i: nat)
    requires AllDigits(s) && i + 1 < |s|
    ensures AllDigits(Swap(s, i))
    ensures Sum(Swap(s, i)) == Sum(s) + SwapChange(Value(s[i]), Value(s[i + 1]), DoubledAt(s, i))
  {
    SumUpdate(s, i, s[i + 1]);
    SecondUpdate(s, i);
  }

  /** After the first digit is overwritten, overwriting the second changes the sum under the other weight. */
  lemma SecondUpdate(s: string, i: nat)
    requires AllDigits(s) && i + 1 < |s|
    ensures var t, doubled := s[i := s[i + 1]], DoubledAt(s, i);
            && AllDigits(t) && AllDigits(Swap(s, i))
            && Sum(Swap(s, i)) - Weight(Value(s[i]), !doubled) == Sum(t) - Weight(Value(s[i + 1]), !doubled)
  {
    Alternates(|s|, i);
    SumUpdate(s[i := s[i + 1]], i + 1, s[i]);
  }

  lemma Alternates(n: nat, i: nat)
    requires i + 1 < n
    ensures (n - i) % 2 == 0 <==> (n - (i + 1)) % 2 != 0
  {
  }

  /** Exchanging two different neighbours of a valid number goes undetected only for 0 and 9. */
  lemma TranspositionDetected(s: string, i: nat)
    requires AllDigits(s) && Valid(s) && i + 1 < |s| && s[i] != s[i + 1]
    ensures AllDigits(Swap(s, i))
    ensures Valid(Swap(s, i)) <==> {Value(s[i]), Value(s[i + 1])} == {0, 9}
  {
    SwapSum(s, i);
    var change := SwapChange(Value(s[i]), Value(s[i + 1]), DoubledAt(s, i));
    SwapChangeSpec(Value(s[i]), Value(s[i + 1]), DoubledAt(s, i));
    AddMultiple(Sum(s), change);
  }

  lemma AddMultiple(sum: int, change: int)
    requires sum % 10 == 0
    ensures (sum + change) % 10 == 0 <==> change % 10 == 0
  {
  }

  function SwapChange(x: nat, y: nat, doubled: bool): int
    requires x < 10 && y < 10
  {
    Weight(y, doubled) - Weight(x, doubled) + Weight(x, !doubled) - Weight(y, !doubled)
  }

  lemma SwapChangeSpec(x: nat, y: nat, doubled: bool)
    requires x < 10 && y < 10 && x != y
    ensures SwapChange(x, y, doubled) % 10 == 0 <==> {x, y} == {0, 9}
  {
    assert -10 < SwapChange(x, y, doubled) < 10;
    assert SwapChange(x, y, doubled) == 0 <==> (x == 0 && y == 9) || (x == 9 && y == 0);
    assert {x, y} == {0, 9} <==> (x == 0 && y == 9) || (x == 9 && y == 0);
  }

  function DigitChar(d: nat): (c: char)
    requires d < 10
    ensures IsDigit(c) && Value(c) == d
  {
    ('0' as int + d) as char
  }

  lemma SumWithCheckDigit(payload: string, c: char)
    requires AllDigits(payload) && IsDigit(c)
    ensures AllDigits(payload + [c]) && Sum(payload + [c]) == Sum(payload + ['0']) + Value(c)
  {
    var zero := payload + ['0'];
    SumUpdate(zero, |payload|, c);
    assert zero[|payload| := c] == payload + [c];
  }

  lemma OneDigitCompletes(sum: nat, x: nat, y: nat)
    requires x < 10 && y < 10 && (sum + x) % 10 == 0 && (sum + y) % 10 == 0
    ensures x == y
  {
  }

  function Complement(sum: nat): (d: nat)
    ensures d < 10 && (sum + d) % 10 == 0
  {
    (10 - sum % 10) % 10
  }

  /** Every payload of 12 to 18 digits can be completed, and by only one check digit. */
  lemma UniqueCheckDigit(payload: string)
    requires AllDigits(payload) && 12 <= |payload| <= 18
    ensures exists c :: IsDigit(c) && Valid(payload + [c])
    ensures forall c, d | IsDigit(c) && IsDigit(d) && Valid(payload + [c]) && Valid(payload + [d]) :: c == d
  {
    var sum := Sum(payload + ['0']);
    var check := DigitChar(Complement(sum));
    SumWithCheckDigit(payload, check);
    assert Valid(payload + [check]);
    forall c, d | IsDigit(c) && IsDigit(d) && Valid(payload + [c]) && Valid(payload + [d])
      ensures c == d
    {
      SumWithCheckDigit(payload, c);
      SumWithCheckDigit(payload, d);
      OneDigitCompletes(sum, Value(c), Value(d));
    }
  }
}
