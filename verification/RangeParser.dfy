/**
  Parsing a range claim such as `$4.2M-$4.5M` or `-4 to -5`.

  Values are exact reals.  Of what Python's `float` accepts, the model reads plain decimals with an
  optional sign; digits are the ASCII digits.
 */
module RangeParser {
  import opened Text
  import opened Helpers

  /** What `\s` and `str.strip` regard as whitespace. */
  predicate IsBlank(c: char)
  {
    IsSpace(c) || '\U{1C}' <= c <= '\U{1F}'
  }

  predicate IsSymbol(c: char)
  {
    c == '$' || c == '\U{20AC}' || c == '\U{A3}' || c == '\U{A5}'
  }

  predicate IsSuffix(c: char)
  {
    c == 'K' || c == 'k' || c == 'M' || c == 'm' || c == 'B' || c == 'b'
  }

  /** The characters after which a dash separates: a digit, a multiplier or a percent sign. */
  predicate Anchors(c: char)
  {
    IsDigit(c) || IsSuffix(c) || c == '%'
  }

  function StripLeft(s: string): string
  {
    if s != "" && IsBlank(s[0]) then StripLeft(s[1..]) else s
  }

  function StripRight(s: string): string
  {
    if s != "" && IsBlank(s[|s| - 1]) then StripRight(s[..|s| - 1]) else s
  }

  // ----- The separator -----

  /** The first position from `p` on that is not blank. */
  function SkipBlanks(s: string, p: nat): (q: nat)
    requires p <= |s|
    ensures p <= q <= |s|
    decreases |s| - p
  {
    if p < |s| && IsBlank(s[p]) then SkipBlanks(s, p + 1) else p
  }

  /** `(?<=[\dKkMmBb%])\s*-\s*` at position `p`: where the match ends. */
  function DashAt(s: string, p: nat): (end: Option<nat>)
    requires p <= |s|
    ensures end.Some? ==> p < end.value <= |s|
  {
    var q := SkipBlanks(s, p);
    if p > 0 && Anchors(s[p - 1]) && q < |s| && s[q] == '-' then Some(SkipBlanks(s, q + 1)) else None
  }

  /** `\s+to\s+` at position `p`. */
  function ToAt(s: string, p: nat): (end: Option<nat>)
    requires p <= |s|
    ensures end.Some? ==> p < end.value <= |s|
  {
    var q := SkipBlanks(s, p);
    if p < q && q + 2 < |s| && s[q] == 't' && s[q + 1] == 'o' && IsBlank(s[q + 2])
    then Some(SkipBlanks(s, q + 2)) else None
  }

  function SeparatorAt(s: string, p: nat): (end: Option<nat>)
    requires p <= |s|
    ensures end.Some? ==> p < end.value <= |s|
  {
    if DashAt(s, p).Some? then DashAt(s, p) else ToAt(s, p)
  }

  /** `re.split`: the pieces of `s[start..]`, looking for the leftmost separator from `p` on. */
  function Split(s: string, start: nat, p: nat): (parts: seq<string>)
    requires start <= p <= |s|
    decreases |s| - p, 1
  {
    match SeparatorAt(s, p)
    case Some(end) => [s[start..p]] + Split(s, end, end)
    case None => if p == |s| then [s[start..]] else Split(s, start, p + 1)
  }

  // ----- One endpoint -----

  /** Currency symbols, percent signs, blanks and commas are removed. */
  function Clean(s: string): string
  {
    if s == "" then ""
    else (if IsSymbol(s[0]) || s[0] == '%' || IsBlank(s[0]) || s[0] == ',' then "" else [s[0]]) + Clean(s[1..])
  }

  predicate Unparsable(s: string)
  {
    s == "" || s == "-" || s == "." || s == "-."
  }

  function Multiplier(c: char): real
  {
    if c == 'K' || c == 'k' then 1000.0
    else if c == 'M' || c == 'm' then 1000000.0
    else if c == 'B' || c == 'b' then 1000000000.0
    else 1.0
  }

  function NatOf(s: string): nat
    requires AllDigits(s)
  {
    if s == "" then 0 else 10 * NatOf(s[..|s| - 1]) + (s[|s| - 1] as int - '0' as int)
  }

  function Pow10(n: nat): (r: nat)
    ensures r > 0
  {
    if n == 0 then 1 else 10 * Pow10(n - 1)
  }

  function DecimalValue(neg: bool, whole: string, frac: string): real
    requires AllDigits(whole) && AllDigits(frac)
  {
    var magnitude := NatOf(whole) as real + NatOf(frac) as real / Pow10(|frac|) as real;
    if neg then -magnitude else magnitude
  }

  function PointIn(s: string): (k: nat)
    ensures k <= |s|
  {
    if s == "" || s[0] == '.' then 0 else 1 + PointIn(s[1..])
  }

  function ParseMagnitude(t: string, neg: bool): Option<real>
  {
    var k := PointIn(t);
    var whole, frac := t[..k], if k < |t| then t[k + 1..] else "";
    if AllDigits(whole) && AllDigits(frac) && whole + frac != "" then Some(DecimalValue(neg, whole, frac)) else None
  }

  /** `float`, on decimals. */
  function ParseFloat(s: string): Option<real>
  {
    if s != "" && (s[0] == '-' || s[0] == '+') then ParseMagnitude(s[1..], s[0] == '-') else ParseMagnitude(s, false)
  }

  function Scale(v: real, multiplier: real): real
  {
    v * multiplier
  }

  /** A number without its multiplier letter, scaled. */
  function Scaled(number: string, multiplier: real): Option<real>
  {
    if Unparsable(number) then None
    else
      match ParseFloat(number)
      case None => None
      case Some(v) => Some(Scale(v, multiplier))
  }

  function Endpoint(part: string): Option<real>
  {
    var cleaned := Clean(part);
    if Unparsable(cleaned) then None
    else
      var last := cleaned[|cleaned| - 1];
      if IsSuffix(last) then Scaled(cleaned[..|cleaned| - 1], Multiplier(last)) else Scaled(cleaned, 1.0)
  }

  // ----- The range -----

  /** The pair of endpoints in ascending order, when there are two different ones. */
  function RangeOf(raw: string): (r: Option<(real, real)>)
    ensures r.Some? ==> r.value.0 < r.value.1
  {
    var s := StripRight(StripLeft(raw));
    var parts := Split(s, 0, 0);
    if |parts| != 2 || Endpoint(parts[0]).None? || Endpoint(parts[1]).None? then None
    else
      var a, b := Endpoint(parts[0]).value, Endpoint(parts[1]).value;
      if a == b then None else if a > b then Some((b, a)) else Some((a, b))
  }

  method ParseEndpoint(part: string) returns (r: Option<real>)
    ensures r == Endpoint(part)
  {
    var cleaned := Clean(part);
    if Unparsable(cleaned) {
      return None;
    }
    var multiplier := 1.0;
    var last := cleaned[|cleaned| - 1];
    if IsSuffix(last) {
      multiplier := Multiplier(last);
      cleaned := cleaned[..|cleaned| - 1];
    }
    assert Endpoint(part) == Scaled(cleaned, multiplier);
    if Unparsable(cleaned) {
      return None;
    }
    var value := ParseFloat(cleaned);
    if value.None? {
      return None;
    }
    return Some(Scale(value.value, multiplier));
  }

  method ParseRange(raw: string) returns (r: Option<(real, real)>)
    ensures r == RangeOf(raw)
  {
    var parts := Split(StripRight(StripLeft(raw)), 0, 0);
    if |parts| != 2 {
      return None;
    }
    ghost var ends := [Endpoint(parts[0]), Endpoint(parts[1])];
    var nums: seq<real> := [];
    for i := 0 to |parts|
      invariant |nums| == i
      invariant forall k | 0 <= k < i :: ends[k] == Some(nums[k])
    {
      var value := ParseEndpoint(parts[i]);
      assert value == ends[i];
      if value.None? {
        return None;
      }
      nums := nums + [value.value];
    }
    if nums[0] == nums[1] {
      return None;
    }
    if nums[0] > nums[1] {
      nums := nums[0 := nums[1]][1 := nums[0]];
    }
    return Some((nums[0], nums[1]));
  }
}
