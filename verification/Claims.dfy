/**
  Numeric claims of a final answer: extraction, judgement against a source, and the coverage of a chain.

  The patterns are given by the matches they find; of parsing, the range split is modelled in full.
  Values are exact reals.
 */
module Claims {
  import opened Text
  import opened Helpers
  import RangeParser

  datatype Kind = Percent | Currency | Float | Int | Range | Expression

  datatype Value = Num(v: real) | ExprText(text: string) | Interval(low: real, high: real)

  datatype Span = Span(start: nat, end: nat)

  datatype Claim = Claim(text: string, value: Value, kind: Kind, span: Span)

  datatype Match = Match(text: string, span: Span)

  /** What each pattern found, in text order. */
  datatype Matches = Matches(percents: seq<Match>, currencies: seq<Match>, floats: seq<Match>, ints: seq<Match>,
                             ranges: seq<Match>, expressions: seq<Match>)

  datatype Candidate = Candidate(kind: Kind, found: Match)

  datatype Batch = Batch(kind: Kind, ms: seq<Match>)

  /** The order in which the patterns are tried. */
  function Batches(m: Matches): seq<Batch>
  {
    [Batch(Percent, m.percents), Batch(Currency, m.currencies), Batch(Float, m.floats), Batch(Int, m.ints),
     Batch(Range, m.ranges), Batch(Expression, m.expressions)]
  }

  function Tagged(kind: Kind, ms: seq<Match>): (r: seq<Candidate>)
    ensures |r| == |ms| && forall i | 0 <= i < |r| :: r[i] == Candidate(kind, ms[i])
  {
    if ms == [] then [] else Tagged(kind, ms[..|ms| - 1]) + [Candidate(kind, ms[|ms| - 1])]
  }

  function Flat(bs: seq<Batch>): seq<Candidate>
  {
    if bs == [] then [] else Flat(bs[..|bs| - 1]) + Tagged(bs[|bs| - 1].kind, bs[|bs| - 1].ms)
  }

  function Candidates(m: Matches): seq<Candidate>
  {
    Flat(Batches(m))
  }

  /** The claim a match makes; a range that does not parse makes none. */
  function ClaimOf(valueOf: string -> real, c: Candidate): Option<Claim>
  {
    var text, span := c.found.text, c.found.span;
    match c.kind
    case Range =>
      var r := RangeParser.RangeOf(text);
      if r.None? then None else Some(Claim(text, Interval(r.value.0, r.value.1), Range, span))
    case Expression =>
      Some(Claim(text, ExprText(RangeParser.StripRight(RangeParser.StripLeft(text))), Expression, span))
    case kind => Some(Claim(text, Num(valueOf(text)), kind, span))
  }

  /** Only the first match of a span counts. */
  function Kept(valueOf: string -> real, cs: seq<Candidate>): seq<Claim>
  {
    if cs == [] then []
    else
      var before, last := cs[..|cs| - 1], cs[|cs| - 1];
      Kept(valueOf, before) +
      if last.found.span in SpansOf(before) || ClaimOf(valueOf, last).None? then [] else [ClaimOf(valueOf, last).value]
  }

  function SpansOf(cs: seq<Candidate>): set<Span>
  {
    set i | 0 <= i < |cs| :: cs[i].found.span
  }

  /** A stable sort by start. */
  function InsertByStart(c: Claim, cs: seq<Claim>): seq<Claim>
  {
    if cs != [] && cs[|cs| - 1].span.start > c.span.start then InsertByStart(c, cs[..|cs| - 1]) + [cs[|cs| - 1]]
    else cs + [c]
  }

  function SortByStart(cs: seq<Claim>): seq<Claim>
  {
    if cs == [] then [] else InsertByStart(cs[|cs| - 1], SortByStart(cs[..|cs| - 1]))
  }

  function Extracted(m: Matches, valueOf: string -> real): seq<Claim>
  {
    SortByStart(Kept(valueOf, Candidates(m)))
  }

  /** What has been kept of the candidates so far, and the spans seen. */
  ghost predicate Holding(valueOf: string -> real, cs: seq<Candidate>, claims: seq<Claim>, seen: set<Span>)
  {
    claims == Kept(valueOf, cs) && seen == SpansOf(cs)
  }

  /** One pass over the matches of one pattern. */
  method AddMatches(b: Batch, valueOf: string -> real, claims: seq<Claim>, seen: set<Span>, ghost done: seq<Candidate>)
    returns (claims': seq<Claim>, seen': set<Span>)
    requires Holding(valueOf, done, claims, seen)
    ensures Holding(valueOf, done + Tagged(b.kind, b.ms), claims', seen')
  {
    claims', seen' := claims, seen;
    assert done + Tagged(b.kind, b.ms[..0]) == done;
    for i := 0 to |b.ms|
      invariant Holding(valueOf, done + Tagged(b.kind, b.ms[..i]), claims', seen')
    {
      OneMoreTagged(done, b, i);
      claims', seen' := Consider(Candidate(b.kind, b.ms[i]), valueOf, claims', seen', done + Tagged(b.kind, b.ms[..i]));
    }
    assert b.ms[..|b.ms|] == b.ms;
  }

  /** Keep the claim of a match unless its span was seen; a range that does not parse leaves its span marked. */
  method Consider(c: Candidate, valueOf: string -> real, claims: seq<Claim>, seen: set<Span>,
                  ghost done: seq<Candidate>)
    returns (claims': seq<Claim>, seen': set<Span>)
    requires Holding(valueOf, done, claims, seen)
    ensures Holding(valueOf, done + [c], claims', seen')
  {
    claims', seen' := claims, seen;
    OneMore(valueOf, done, c);
    if c.found.span in seen {
      return;
    }
    seen' := seen + {c.found.span};
    var claim := ClaimOf(valueOf, c);
    if claim.Some? {
      claims' := claims + [claim.value];
    }
  }

  lemma OneMoreTagged(done: seq<Candidate>, b: Batch, i: nat)
    requires i < |b.ms|
    ensures done + Tagged(b.kind, b.ms[..i + 1]) == done + Tagged(b.kind, b.ms[..i]) + [Candidate(b.kind, b.ms[i])]
  {
    assert b.ms[..i + 1][..i] == b.ms[..i];
  }

  lemma OneMore(valueOf: string -> real, cs: seq<Candidate>, c: Candidate)
    ensures SpansOf(cs + [c]) == SpansOf(cs) + {c.found.span}
    ensures Kept(valueOf, cs + [c]) ==
            Kept(valueOf, cs) +
            if c.found.span in SpansOf(cs) || ClaimOf(valueOf, c).None? then [] else [ClaimOf(valueOf, c).value]
  {
    assert (cs + [c])[..|cs|] == cs;
    forall i | 0 <= i < |cs|
      ensures cs[i].found.span in SpansOf(cs + [c])
    {
      assert (cs + [c])[i] == cs[i];
    }
    assert (cs + [c])[|cs|] == c;
  }

  method Extract(m: Matches, valueOf: string -> real) returns (claims: seq<Claim>)
    ensures claims == Extracted(m, valueOf)
  {
    var batches := Batches(m);
    var seen: set<Span> := {};
    claims := [];
    for i := 0 to |batches|
      invariant Holding(valueOf, Flat(batches[..i]), claims, seen)
    {
      assert batches[..i + 1][..i] == batches[..i];
      claims, seen := AddMatches(batches[i], valueOf, claims, seen, Flat(batches[..i]));
    }
    assert batches[..|batches|] == batches;
    claims := SortByStart(claims);
  }

  // ----- Judgement -----

  datatype Status = Verified | Incorrect | Unverified

  datatype ClaimVerdict = ClaimVerdict(claim: string, status: Status, observed: Value, expected: Option<Value>)

  /** `float(x)`: a number, a text that reads as one, never a pair. */
  function AsFloat(floatOf: string -> Option<real>, x: Value): Option<real>
  {
    match x
    case Num(v) => Some(v)
    case ExprText(text) => floatOf(text)
    case Interval(_, _) => None
  }

  function Abs(x: real): real
  {
    if x < 0.0 then -x else x
  }

  function Close(tolerance: real, of: real, ef: real): bool
  {
    of == ef || Abs(of - ef) / Max(Max(Abs(of), Abs(ef)), 0.000000000001) <= tolerance
  }

  function ValuesMatch(floatOf: string -> Option<real>, tolerance: real, observed: Value, expected: Value): bool
  {
    || observed == expected
    || (AsFloat(floatOf, observed).Some? && AsFloat(floatOf, expected).Some?
        && Close(tolerance, AsFloat(floatOf, observed).value, AsFloat(floatOf, expected).value))
  }

  /** `_judge`: no source, a range around the source, or a value near it. */
  function Judge(floatOf: string -> Option<real>, tolerance: real, c: Claim, source: Option<Value>): ClaimVerdict
  {
    match source
    case None => ClaimVerdict(c.text, Unverified, c.value, None)
    case Some(truth) =>
      var ok :=
        if c.kind == Range && c.value.Interval? then
          AsFloat(floatOf, truth).Some? && c.value.low <= AsFloat(floatOf, truth).value <= c.value.high
        else ValuesMatch(floatOf, tolerance, c.value, truth);
      ClaimVerdict(c.text, if ok then Verified else Incorrect, c.value, source)
  }

  function Judged(floatOf: string -> Option<real>, tolerance: real, resolver: Claim -> Option<Value>,
                  cs: seq<Claim>): (vs: seq<ClaimVerdict>)
    ensures |vs| == |cs|
    ensures forall i | 0 <= i < |vs| :: vs[i] == Judge(floatOf, tolerance, cs[i], resolver(cs[i]))
  {
    if cs == [] then []
    else [Judge(floatOf, tolerance, cs[0], resolver(cs[0]))] + Judged(floatOf, tolerance, resolver, cs[1..])
  }

  /** `NumericVerifier.verify`: one verdict per extracted claim, in order. */
  method Verify(m: Matches, valueOf: string -> real, floatOf: string -> Option<real>, tolerance: real,
                resolver: Claim -> Option<Value>)
    returns (out: seq<ClaimVerdict>)
    ensures out == Judged(floatOf, tolerance, resolver, Extracted(m, valueOf))
  {
    var claims := Extract(m, valueOf);
    out := [];
    for i := 0 to |claims|
      invariant |out| == i
      invariant forall k | 0 <= k < i :: out[k] == Judge(floatOf, tolerance, claims[k], resolver(claims[k]))
    {
      out := out + [Judge(floatOf, tolerance, claims[i], resolver(claims[i]))];
    }
  }

  // ----- The chain -----

  function CountOf(status: Status, vs: seq<ClaimVerdict>): (n: nat)
    ensures n <= |vs|
  {
    if vs == [] then 0 else CountOf(status, vs[..|vs| - 1]) + if vs[|vs| - 1].status == status then 1 else 0
  }

  function Coverage(vs: seq<ClaimVerdict>): real
  {
    if vs == [] then 1.0 else CountOf(Verified, vs) as real / |vs| as real
  }

  predicate Passed(vs: seq<ClaimVerdict>, threshold: real)
  {
    vs == [] || (CountOf(Incorrect, vs) == 0 && Coverage(vs) >= threshold)
  }
}
