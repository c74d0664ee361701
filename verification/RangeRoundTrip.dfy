/**
  What the range parser makes of two amounts and a separator.

  Amounts and separators are written in every way that the range pattern takes, digits being the ASCII
  digits: a currency symbol with blanks after it, a sign, a fraction after a point or a comma, blanks and a
  multiplier letter or a percent sign; one of the three dashes or the word `to`, with or without blanks.
 */
module RangeRoundTrip {
  import opened Text
  import opened Helpers
  import opened RangeParser

  datatype Fraction = Point(digits: string) | Comma(digits: string)

  /** An amount as a text may show it. */
  datatype Amount = Amount(symbol: Option<char>, gap: string, neg: bool, whole: string, frac: Option<Fraction>,
                           pad: string, suffix: Option<char>)
  {
    predicate Valid()
    {
      && (symbol.Some? ==> IsSymbol(symbol.value))
      && Blank(gap) && (gap != "" ==> symbol.Some?)
      && whole != "" && AllDigits(whole)
      && (frac.Some? ==> frac.value.digits != "" && AllDigits(frac.value.digits))
      && Blank(pad) && (pad != "" ==> suffix.Some?)
      && (suffix.Some? ==> IsSuffix(suffix.value) || suffix.value == '%')
    }

    function Head(): string
    {
      (if symbol.Some? then [symbol.value] else "") + gap + Sign()
    }

    function Sign(): string
    {
      if neg then "-" else ""
    }

    function Written(): string
    {
      match frac
      case None => whole
      case Some(Point(d)) => whole + ("." + d)
      case Some(Comma(d)) => whole + ("," + d)
    }

    function Tail(): string
    {
      pad + if suffix.Some? then [suffix.value] else ""
    }

    function Print(): string
    {
      Head() + (Written() + Tail())
    }

    /** The digits that are read: a comma is dropped, so what follows it joins the whole part. */
    function WholeRead(): string
    {
      if frac.Some? && frac.value.Comma? then whole + frac.value.digits else whole
    }

    function FractionRead(): string
    {
      if frac.Some? && frac.value.Point? then frac.value.digits else ""
    }

    function Number(): string
    {
      match frac
      case None => whole
      case Some(Point(d)) => whole + ("." + d)
      case Some(Comma(d)) => whole + d
    }

    function Magnitude(): real
      requires Valid()
    {
      DecimalValue(neg, WholeRead(), FractionRead())
    }

    /** A percent sign does not scale. */
    function Letter(): Option<char>
    {
      if suffix == Some('%') then None else suffix
    }

    function Value(): real
      requires Valid()
    {
      Scale(Magnitude(), if Letter().Some? then Multiplier(Letter().value) else 1.0)
    }
  }

  predicate Blank(s: string)
  {
    forall i | 0 <= i < |s| :: IsBlank(s[i])
  }

  datatype Word = Hyphen | EnDash | EmDash | To
  {
    function Print(): string
    {
      match this
      case Hyphen => "-"
      case EnDash => "\U{2013}"
      case EmDash => "\U{2014}"
      case To => "to"
    }
  }

  datatype Separator = Separator(before: string, word: Word, after: string)
  {
    predicate Valid()
    {
      Blank(before) && Blank(after)
    }

    function Print(): string
    {
      before + word.Print() + after
    }

    /** What the parser splits at: a hyphen, or the word `to` with blanks on both sides. */
    predicate Splits()
    {
      word.Hyphen? || (word.To? && before != "" && after != "")
    }
  }

  // ----- Skipping blanks -----

  ghost predicate AllBlank(s: string, p: nat, q: nat)
    requires p <= q <= |s|
  {
    forall i | p <= i < q :: IsBlank(s[i])
  }

  lemma {:induction false} SkipsBlanksOnly(s: string, p: nat)
    requires p <= |s|
    ensures AllBlank(s, p, SkipBlanks(s, p))
    decreases |s| - p
  {
    if p < |s| && IsBlank(s[p]) {
      SkipsBlanksOnly(s, p + 1);
    }
  }

  lemma {:induction false} SkipRun(s: string, p: nat, q: nat)
    requires p <= q <= |s| && AllBlank(s, p, q)
    requires q < |s| ==> !IsBlank(s[q])
    ensures SkipBlanks(s, p) == q
    decreases q - p
  {
    if p < q {
      SkipRun(s, p + 1, q);
    }
  }

  lemma BlankBetween(s: string, p: nat, q: nat, i: nat)
    requires p <= q <= |s| && AllBlank(s, p, q) && p <= i < q
    ensures IsBlank(s[i])
  {
  }

  lemma StopsBy(s: string, p: nat, q: nat, i: nat)
    requires p <= q <= |s| && AllBlank(s, p, q) && p <= i < |s| && !IsBlank(s[i])
    ensures q <= i
  {
  }

  // ----- Texts in which no separator starts -----

  /** A dash, blanks before it skipped, has something before it that anchors no separator. */
  ghost predicate Guarded(s: string)
  {
    forall p, q | 0 < p <= q < |s| && AllBlank(s, p, q) && s[q] == '-' :: !Anchors(s[p - 1])
  }

  /** The text of an amount, as far as separators are concerned. */
  ghost predicate Firm(s: string)
  {
    && s != "" && !IsBlank(s[0]) && Anchors(s[|s| - 1])
    && (forall i | 0 <= i < |s| :: s[i] != 't')
    && Guarded(s)
  }

  lemma HeadGuards(h: string, x: string)
    requires forall i | 0 <= i < |h| :: !Anchors(h[i])
    requires forall i | 0 <= i < |x| :: x[i] != '-'
    ensures Guarded(h + x)
  {
    var s := h + x;
    assert forall i | 0 <= i < |h| :: s[i] == h[i];
    assert forall i | |h| <= i < |s| :: s[i] == x[i - |h|];
  }

  predicate HeadLike(h: string)
  {
    (forall i | 0 <= i < |h| :: !Anchors(h[i]) && h[i] != 't') && (h != "" ==> !IsBlank(h[0]))
  }

  predicate WrittenLike(w: string)
  {
    && w != "" && IsDigit(w[0]) && IsDigit(w[|w| - 1])
    && forall i | 0 <= i < |w| :: w[i] != '-' && w[i] != 't'
  }

  predicate TailLike(t: string)
  {
    (forall i | 0 <= i < |t| :: t[i] != '-' && t[i] != 't') && (t != "" ==> Anchors(t[|t| - 1]))
  }

  lemma HeadIs(a: Amount)
    requires a.Valid()
    ensures HeadLike(a.Head())
  {
    var symbol := if a.symbol.Some? then [a.symbol.value] else "";
    assert forall i | 0 <= i < |symbol + a.gap| :: IsSymbol((symbol + a.gap)[i]) || IsBlank((symbol + a.gap)[i]);
  }

  lemma WrittenIs(a: Amount)
    requires a.Valid()
    ensures WrittenLike(a.Written())
  {
  }

  lemma TailIs(a: Amount)
    requires a.Valid()
    ensures TailLike(a.Tail())
  {
  }

  lemma PrintIsFirm(a: Amount)
    requires a.Valid()
    ensures Firm(a.Print())
  {
    HeadIs(a);
    WrittenIs(a);
    TailIs(a);
    FirmFrom(a.Head(), a.Written(), a.Tail());
  }

  lemma FirmFrom(h: string, w: string, t: string)
    requires HeadLike(h) && WrittenLike(w) && TailLike(t)
    ensures Firm(h + (w + t))
  {
    var x := w + t;
    var s := h + x;
    assert forall i | 0 <= i < |x| :: x[i] == if i < |w| then w[i] else t[i - |w|];
    assert forall i | 0 <= i < |s| :: s[i] == if i < |h| then h[i] else x[i - |h|];
    HeadGuards(h, x);
  }

  /** No separator starts from `lo` up to before `hi`. */
  ghost predicate Quiet(s: string, lo: nat, hi: nat)
  {
    lo <= hi <= |s| + 1 && forall p | lo <= p < hi :: SeparatorAt(s, p) == None
  }

  lemma InFirst(a: string, rest: string, p: nat)
    requires Firm(a) && p < |a|
    ensures SeparatorAt(a + rest, p) == None
  {
    var s := a + rest;
    var q := SkipBlanks(s, p);
    assert forall i | 0 <= i < |a| :: s[i] == a[i];
    SkipsBlanksOnly(s, p);
    StopsBy(s, p, q, |a| - 1);
    assert AllBlank(a, p, q);
  }

  lemma InLast(head: string, b: string, p: nat)
    requires Firm(b) && head != "" && !Anchors(head[|head| - 1]) && |head| <= p <= |head + b|
    ensures SeparatorAt(head + b, p) == None
  {
    var s, k := head + b, |head|;
    var q := SkipBlanks(s, p);
    assert forall i | k <= i < |s| :: s[i] == b[i - k];
    assert s[k - 1] == head[k - 1];
    SkipsBlanksOnly(s, p);
    if p == k {
      SkipRun(s, p, p);
    } else {
      assert forall i | 0 <= i < |b| :: b[i] == s[i + k];
      assert AllBlank(b, p - k, q - k);
    }
  }

  // ----- Splitting -----

  lemma {:induction false} SplitAfter(s: string, start: nat, p: nat)
    requires start <= p && p <= |s| && Quiet(s, p, |s| + 1)
    ensures Split(s, start, p) == [s[start..]]
    decreases |s| - p
  {
    if p < |s| {
      SplitAfter(s, start, p + 1);
    }
  }

  lemma {:induction false} SplitBefore(s: string, p: nat, n: nat, end: nat)
    requires n <= |s| && Quiet(s, p, n) && SeparatorAt(s, n) == Some(end)
    ensures Split(s, 0, p) == [s[..n]] + Split(s, end, end)
    decreases n - p
  {
    if p < n {
      SplitBefore(s, p + 1, n, end);
    }
  }

  /** Where the pieces of `a`, the separator and `b` lie. */
  lemma Layout(a: string, j: Separator, b: string)
    requires j.Valid()
    ensures var s, m := a + j.Print() + b, |a| + |j.before|;
            var k, n := m + |j.word.Print()|, |a| + |j.Print()|;
            && |a| <= m < k <= n <= |s| && |s| == n + |b|
            && AllBlank(s, |a|, m) && AllBlank(s, k, n)
            && s[m..k] == j.word.Print() && s[..|a|] == a && s[n..] == b
  {
    var s, m := a + j.Print() + b, |a| + |j.before|;
    var k, n := m + |j.word.Print()|, |a| + |j.Print()|;
    assert forall i | |a| <= i < m :: s[i] == j.before[i - |a|];
    assert forall i | k <= i < n :: s[i] == j.after[i - k];
  }

  lemma WordIs(s: string, m: nat, w: Word)
    requires m + |w.Print()| <= |s| && s[m..m + |w.Print()|] == w.Print()
    ensures !IsBlank(s[m]) && !Anchors(s[m])
    ensures w.Hyphen? <==> s[m] == '-'
    ensures w.To? <==> s[m] == 't'
    ensures w.To? ==> |w.Print()| == 2 && s[m + 1] == 'o'
    ensures !w.To? ==> |w.Print()| == 1
  {
    assert s[m] == s[m..m + |w.Print()|][0];
    if w.To? {
      assert s[m + 1] == s[m..m + 2][1];
    }
  }

  lemma SplitsHere(a: string, j: Separator, b: string)
    requires Firm(a) && Firm(b) && j.Valid() && j.Splits()
    ensures SeparatorAt(a + j.Print() + b, |a|) == Some(|a| + |j.Print()|)
  {
    var s, m, n := a + j.Print() + b, |a| + |j.before|, |a| + |j.Print()|;
    Layout(a, j, b);
    WordIs(s, m, j.word);
    assert s[n] == s[n..][0] && s[|a| - 1] == s[..|a|][|a| - 1];
    SkipRun(s, |a|, m);
    SkipRun(s, m + |j.word.Print()|, n);
  }

  /** No separator starts at or inside one that the parser does not split at. */
  lemma NoSplitInside(a: string, j: Separator, b: string, p: nat)
    requires Firm(a) && Firm(b) && j.Valid() && !j.Splits() && |a| <= p < |a| + |j.Print()|
    ensures SeparatorAt(a + j.Print() + b, p) == None
  {
    var s, m, n := a + j.Print() + b, |a| + |j.before|, |a| + |j.Print()|;
    var k := m + |j.word.Print()|;
    Layout(a, j, b);
    WordIs(s, m, j.word);
    assert s[n] == s[n..][0];
    if p <= m {
      SkipRun(s, p, m);
    } else if p < k {
      SkipRun(s, p, p);
    } else {
      SkipRun(s, p, n);
      if p > k {
        BlankBetween(s, k, n, p - 1);
      }
    }
  }

  lemma EndsWithoutAnchor(a: string, j: Separator)
    requires j.Valid()
    ensures a + j.Print() != "" && !Anchors((a + j.Print())[|a + j.Print()| - 1])
  {
    var t := j.Print();
    assert j.after != "" ==> t[|t| - 1] == j.after[|j.after| - 1];
  }

  /** The parser splits at the separator if it is one of its own, and nowhere else: sign dashes do not split. */
  lemma SplitsInTwo(a: string, j: Separator, b: string)
    requires Firm(a) && Firm(b) && j.Valid()
    ensures var s := a + j.Print() + b;
            Split(s, 0, 0) == if j.Splits() then [a, b] else [s]
  {
    var s, n := a + j.Print() + b, |a| + |j.Print()|;
    QuietFirst(a, j, b);
    QuietLast(a, j, b);
    Layout(a, j, b);
    if j.Splits() {
      SplitsHere(a, j, b);
      SplitBefore(s, 0, |a|, n);
      SplitAfter(s, n, n);
    } else {
      QuietInside(a, j, b);
      SplitAfter(s, 0, 0);
    }
  }

  lemma QuietFirst(a: string, j: Separator, b: string)
    requires Firm(a)
    ensures Quiet(a + j.Print() + b, 0, |a|)
  {
    Assoc(a, j.Print(), b);
    forall p | 0 <= p < |a|
      ensures SeparatorAt(a + j.Print() + b, p) == None
    {
      InFirst(a, j.Print() + b, p);
    }
  }

  lemma QuietLast(a: string, j: Separator, b: string)
    requires Firm(b) && j.Valid()
    ensures var s := a + j.Print() + b; Quiet(s, |a| + |j.Print()|, |s| + 1)
  {
    var head := a + j.Print();
    EndsWithoutAnchor(a, j);
    forall p | |head| <= p <= |head + b|
      ensures SeparatorAt(head + b, p) == None
    {
      InLast(head, b, p);
    }
  }

  lemma QuietInside(a: string, j: Separator, b: string)
    requires Firm(a) && Firm(b) && j.Valid() && !j.Splits()
    ensures Quiet(a + j.Print() + b, |a|, |a| + |j.Print()|)
  {
    forall p | |a| <= p < |a| + |j.Print()|
      ensures SeparatorAt(a + j.Print() + b, p) == None
    {
      NoSplitInside(a, j, b, p);
    }
  }

  lemma {:induction false} StripsLead(lead: string, s: string)
    requires Blank(lead) && s != "" && !IsBlank(s[0])
    ensures StripLeft(lead + s) == s
  {
    if lead == "" {
      assert lead + s == s;
    } else {
      assert (lead + s)[1..] == lead[1..] + s;
      StripsLead(lead[1..], s);
    }
  }

  lemma {:induction false} StripsTrail(s: string, trail: string)
    requires Blank(trail) && s != "" && !IsBlank(s[|s| - 1])
    ensures StripRight(s + trail) == s
  {
    if trail == "" {
      assert s + trail == s;
    } else {
      assert (s + trail)[..|s + trail| - 1] == s + trail[..|trail| - 1];
      StripsTrail(s, trail[..|trail| - 1]);
    }
  }

  // ----- Reading an amount -----

  lemma {:induction false} CleanConcat(s: string, t: string)
    ensures Clean(s + t) == Clean(s) + Clean(t)
  {
    if s == "" {
      assert s + t == t;
    } else {
      assert (s + t)[1..] == s[1..] + t;
      CleanConcat(s[1..], t);
    }
  }

  lemma {:induction false} CleanKeeps(s: string)
    requires forall i | 0 <= i < |s| :: IsDigit(s[i]) || s[i] == '.' || s[i] == '-' || IsSuffix(s[i])
    ensures Clean(s) == s
  {
    if s != "" {
      CleanKeeps(s[1..]);
    }
  }

  lemma {:induction false} CleanDrops(s: string)
    requires forall i | 0 <= i < |s| :: IsSymbol(s[i]) || s[i] == '%' || IsBlank(s[i]) || s[i] == ','
    ensures Clean(s) == ""
  {
    if s != "" {
      CleanDrops(s[1..]);
    }
  }

  lemma CleanHead(a: Amount)
    requires a.Valid()
    ensures Clean(a.Head()) == a.Sign()
  {
    var lead := (if a.symbol.Some? then [a.symbol.value] else "") + a.gap;
    CleanConcat(lead, a.Sign());
    CleanDrops(lead);
    CleanKeeps(a.Sign());
  }

  lemma CleanWritten(a: Amount)
    requires a.Valid()
    ensures Clean(a.Written()) == a.Number()
  {
    CleanKeeps(a.whole);
    match a.frac
    case None =>
    case Some(Point(d)) => CleanPoint(a.whole, d);
    case Some(Comma(d)) => CleanComma(a.whole, d);
  }

  lemma CleanPoint(whole: string, d: string)
    requires AllDigits(whole) && AllDigits(d)
    ensures Clean(whole + ("." + d)) == whole + ("." + d)
  {
    var t := whole + ("." + d);
    assert forall i | 0 <= i < |t| :: IsDigit(t[i]) || t[i] == '.';
    CleanKeeps(t);
  }

  lemma CleanComma(whole: string, d: string)
    requires AllDigits(whole) && AllDigits(d)
    ensures Clean(whole + ("," + d)) == whole + d
  {
    CleanConcat(whole, "," + d);
    assert ("," + d)[1..] == d;
    CleanKeeps(whole);
    CleanKeeps(d);
  }

  function LetterText(a: Amount): string
  {
    if a.Letter().Some? then [a.Letter().value] else ""
  }

  lemma CleanTail(a: Amount)
    requires a.Valid()
    ensures Clean(a.Tail()) == LetterText(a)
  {
    var suffix := if a.suffix.Some? then [a.suffix.value] else "";
    CleanConcat(a.pad, suffix);
    CleanDrops(a.pad);
    if a.Letter().Some? {
      CleanKeeps(suffix);
    } else {
      CleanDrops(suffix);
    }
  }

  function Signed(a: Amount): string
  {
    a.Sign() + a.Number()
  }

  lemma CleanPrint(a: Amount)
    requires a.Valid()
    ensures Clean(a.Print()) == Signed(a) + LetterText(a)
  {
    CleanConcat(a.Head(), a.Written() + a.Tail());
    CleanConcat(a.Written(), a.Tail());
    CleanHead(a);
    CleanWritten(a);
    CleanTail(a);
    Assoc(a.Sign(), a.Number(), LetterText(a));
  }

  lemma {:induction false} PointAfterDigits(whole: string, rest: string)
    requires AllDigits(whole) && (rest == "" || rest[0] == '.')
    ensures PointIn(whole + rest) == |whole|
  {
    if whole == "" {
      assert whole + rest == rest;
    } else {
      assert (whole + rest)[1..] == whole[1..] + rest;
      PointAfterDigits(whole[1..], rest);
    }
  }

  lemma ParseDecimal(neg: bool, whole: string, point: bool, frac: string)
    requires whole != "" && AllDigits(whole) && AllDigits(frac) && (!point ==> frac == "")
    ensures ParseMagnitude(if point then whole + ("." + frac) else whole, neg) == Some(DecimalValue(neg, whole, frac))
  {
    var rest := if point then "." + frac else "";
    PointAfterDigits(whole, rest);
    assert !point ==> whole + rest == whole;
    assert (whole + rest)[..|whole|] == whole;
    assert point ==> (whole + rest)[|whole| + 1..] == frac;
  }

  lemma ParseNumber(a: Amount)
    requires a.Valid()
    ensures ParseMagnitude(a.Number(), a.neg) == Some(a.Magnitude())
    ensures a.Number() != "" && IsDigit(a.Number()[0]) && IsDigit(a.Number()[|a.Number()| - 1])
  {
    match a.frac
    case None => ParseDecimal(a.neg, a.whole, false, "");
    case Some(Point(d)) => ParseDecimal(a.neg, a.whole, true, d);
    case Some(Comma(d)) => ParseDecimal(a.neg, a.whole + d, false, "");
  }

  lemma SignParses(neg: bool, digits: string, v: real)
    requires digits != "" && IsDigit(digits[0]) && IsDigit(digits[|digits| - 1])
    requires ParseMagnitude(digits, neg) == Some(v)
    ensures var s := (if neg then "-" else "") + digits;
            ParseFloat(s) == Some(v) && s != "" && IsDigit(s[|s| - 1]) && !Unparsable(s)
  {
    var s := (if neg then "-" else "") + digits;
    assert s[|s| - 1] == digits[|digits| - 1];
    assert neg ==> s[0] == '-' && s[1..] == digits;
    assert !neg ==> s == digits;
    EndsInDigit(s);
  }

  lemma EndsInDigit(s: string)
    requires s != "" && IsDigit(s[|s| - 1])
    ensures !Unparsable(s)
  {
  }

  lemma ScaledNumber(part: string, number: string, letter: char)
    requires number != "" && !Unparsable(number) && IsSuffix(letter)
    requires Clean(part) == number + [letter]
    ensures Endpoint(part) == Scaled(number, Multiplier(letter))
  {
    var cleaned := Clean(part);
    assert cleaned[..|cleaned| - 1] == number && cleaned[|cleaned| - 1] == letter;
    assert !Unparsable(cleaned);
  }

  lemma PlainNumber(part: string, number: string)
    requires number != "" && IsDigit(number[|number| - 1]) && !Unparsable(number)
    requires Clean(part) == number
    ensures Endpoint(part) == Scaled(number, 1.0)
  {
  }

  lemma ScaledIs(number: string, multiplier: real, v: real)
    requires ParseFloat(number) == Some(v) && !Unparsable(number)
    ensures Scaled(number, multiplier) == Some(Scale(v, multiplier))
  {
  }

  /** An endpoint reads back as the value of the amount printed. */
  lemma EndpointReadsAmount(a: Amount)
    requires a.Valid()
    ensures Endpoint(a.Print()) == Some(a.Value())
  {
    var number := Signed(a);
    CleanPrint(a);
    ParseNumber(a);
    SignParses(a.neg, a.Number(), a.Magnitude());
    if a.Letter().Some? {
      ScaledNumber(a.Print(), number, a.Letter().value);
      ScaledIs(number, Multiplier(a.Letter().value), a.Magnitude());
    } else {
      assert number + "" == number;
      PlainNumber(a.Print(), number);
      ScaledIs(number, 1.0, a.Magnitude());
    }
  }

  // ----- The range -----

  /** What two values make: an ordered pair, or nothing when they are equal. */
  function Ordered(x: real, y: real): Option<(real, real)>
  {
    if x == y then None else if x < y then Some((x, y)) else Some((y, x))
  }

  /** Two amounts and a separator, with the blanks that a match may have around it. */
  function RangeText(lead: string, a: Amount, j: Separator, b: Amount, trail: string): string
  {
    lead + (a.Print() + j.Print() + b.Print() + trail)
  }

  lemma StrippedRange(lead: string, a: Amount, j: Separator, b: Amount, trail: string)
    requires a.Valid() && b.Valid() && j.Valid() && Blank(lead) && Blank(trail)
    ensures StripRight(StripLeft(RangeText(lead, a, j, b, trail))) == a.Print() + j.Print() + b.Print()
  {
    var s := a.Print() + j.Print() + b.Print();
    PrintIsFirm(a);
    PrintIsFirm(b);
    assert s[0] == a.Print()[0] && s[|s| - 1] == b.Print()[|b.Print()| - 1];
    StripsAround(lead, s, trail);
  }

  lemma StripsAround(lead: string, s: string, trail: string)
    requires Blank(lead) && Blank(trail) && s != "" && !IsBlank(s[0]) && !IsBlank(s[|s| - 1])
    ensures StripRight(StripLeft(lead + (s + trail))) == s
  {
    assert (s + trail)[0] == s[0];
    StripsLead(lead, s + trail);
    StripsTrail(s, trail);
  }

  lemma RangeOfTwo(raw: string, x: string, y: string, v: real, w: real)
    requires Split(StripRight(StripLeft(raw)), 0, 0) == [x, y] && Endpoint(x) == Some(v) && Endpoint(y) == Some(w)
    ensures RangeOf(raw) == Ordered(v, w)
  {
  }

  lemma RangeOfOne(raw: string, s: string)
    requires Split(StripRight(StripLeft(raw)), 0, 0) == [s]
    ensures RangeOf(raw) == None
  {
  }

  /**
    Two amounts written in any way, with any separator that the pattern takes, parse to exactly the ordered
    pair of their values when the separator is a hyphen, or `to` with blanks on both sides, and their values
    differ; in every other case they parse to nothing.
   */
  lemma RangeReadsBack(lead: string, a: Amount, j: Separator, b: Amount, trail: string)
    requires a.Valid() && b.Valid() && j.Valid() && Blank(lead) && Blank(trail)
    ensures RangeOf(RangeText(lead, a, j, b, trail)) == if j.Splits() then Ordered(a.Value(), b.Value()) else None
  {
    var x, y := a.Print(), b.Print();
    StrippedRange(lead, a, j, b, trail);
    PrintIsFirm(a);
    PrintIsFirm(b);
    SplitsInTwo(x, j, y);
    if j.Splits() {
      EndpointReadsAmount(a);
      EndpointReadsAmount(b);
      RangeOfTwo(RangeText(lead, a, j, b, trail), x, y, a.Value(), b.Value());
    } else {
      RangeOfOne(RangeText(lead, a, j, b, trail), x + j.Print() + y);
    }
  }

  /** The order in which the endpoints are written, and which of the parser's separators, do not matter. */
  lemma EndpointsCommute(a: Amount, j: Separator, k: Separator, b: Amount)
    requires a.Valid() && b.Valid() && j.Valid() && k.Valid() && j.Splits() == k.Splits()
    ensures RangeOf(RangeText("", a, j, b, "")) == RangeOf(RangeText("", b, k, a, ""))
  {
    RangeReadsBack("", a, j, b, "");
    RangeReadsBack("", b, k, a, "");
  }

  /** Of the texts that the pattern takes, those that make a range. */
  lemma ReadsSomethingIff(lead: string, a: Amount, j: Separator, b: Amount, trail: string)
    requires a.Valid() && b.Valid() && j.Valid() && Blank(lead) && Blank(trail)
    ensures RangeOf(RangeText(lead, a, j, b, trail)).Some? <==> j.Splits() && a.Value() != b.Value()
  {
    RangeReadsBack(lead, a, j, b, trail);
  }

  // ----- Ranges that are lost -----

  /** A positive amount of one digit, without decoration. */
  function Plain(neg: bool, digit: char): Amount
  {
    Amount(None, "", neg, [digit], None, "", None)
  }

  /** `4 to-5`: the word is glued to the second amount. */
  lemma GluedToReadsNothing()
    ensures RangeOf("4 to-5") == None
  {
    var a, j, b := Plain(false, '4'), Separator(" ", To, ""), Plain(true, '5');
    assert RangeText("", a, j, b, "") == "4 to-5";
    RangeReadsBack("", a, j, b, "");
  }

  /** `4`, an en dash, `5`. */
  lemma EnDashReadsNothing()
    ensures RangeOf("4\U{2013}5") == None
  {
    var a, j, b := Plain(false, '4'), Separator("", EnDash, ""), Plain(false, '5');
    assert RangeText("", a, j, b, "") == "4\U{2013}5";
    RangeReadsBack("", a, j, b, "");
  }
}
