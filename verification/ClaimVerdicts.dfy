/**
  The verdicts of a list of claims, read off their values and sources, and where the claims come from.

  Nothing is divided here: a value is near its source when their difference is within the tolerance
  times the greatest of the two magnitudes and 1e-12.
 */
module ClaimVerdicts {
  import opened Text
  import opened Helpers
  import opened Claims
  import opened ClaimProperties
  import RangeParser

  // ----- One claim and its source -----

  /** The value is a number, or a text that reads as one. */
  predicate ReadsAs(floatOf: string -> Option<real>, v: Value, x: real)
  {
    v == Num(x) || (v.ExprText? && floatOf(v.text) == Some(x))
  }

  predicate Near(tol: real, x: real, truth: real)
  {
    x == truth || Abs(x - truth) <= tol * Max(Max(Abs(x), Abs(truth)), 0.000000000001)
  }

  ghost predicate Encloses(floatOf: string -> Option<real>, v: Value, truth: Value)
    requires v.Interval?
  {
    exists x :: ReadsAs(floatOf, truth, x) && v.low <= x <= v.high
  }

  ghost predicate ReadsNear(floatOf: string -> Option<real>, tol: real, v: Value, truth: Value)
  {
    exists x, t :: ReadsAs(floatOf, v, x) && ReadsAs(floatOf, truth, t) && Near(tol, x, t)
  }

  /** A range agrees with a number inside it, any other claim with its own value or one near it. */
  ghost predicate Agrees(floatOf: string -> Option<real>, tol: real, c: Claim, truth: Value)
  {
    if c.kind == Range && c.value.Interval? then Encloses(floatOf, c.value, truth)
    else c.value == truth || ReadsNear(floatOf, tol, c.value, truth)
  }

  lemma AsFloatMeans(floatOf: string -> Option<real>, v: Value)
    ensures forall x :: AsFloat(floatOf, v) == Some(x) <==> ReadsAs(floatOf, v, x)
  {
  }

  lemma CloseMeans(tol: real, x: real, truth: real)
    ensures Close(tol, x, truth) <==> Near(tol, x, truth)
  {
    QuotientAtMost(Abs(x - truth), Max(Max(Abs(x), Abs(truth)), 0.000000000001), tol);
  }

  lemma MatchMeans(floatOf: string -> Option<real>, tol: real, v: Value, truth: Value)
    ensures ValuesMatch(floatOf, tol, v, truth) <==> v == truth || ReadsNear(floatOf, tol, v, truth)
  {
    AsFloatMeans(floatOf, v);
    AsFloatMeans(floatOf, truth);
    forall x, t
      ensures Close(tol, x, t) <==> Near(tol, x, t)
    {
      CloseMeans(tol, x, t);
    }
  }

  /** A sourced claim is verified exactly when it agrees with its source, and else incorrect. */
  ghost predicate JudgedRight(floatOf: string -> Option<real>, tol: real, c: Claim, source: Option<Value>,
                              v: ClaimVerdict)
  {
    && v.claim == c.text && v.observed == c.value && v.expected == source
    && match source
       case None => v.status == Unverified
       case Some(truth) => v.status == if Agrees(floatOf, tol, c, truth) then Verified else Incorrect
  }

  lemma JudgeMeans(floatOf: string -> Option<real>, tol: real, c: Claim, source: Option<Value>)
    ensures JudgedRight(floatOf, tol, c, source, Judge(floatOf, tol, c, source))
  {
    if source.Some? {
      MatchMeans(floatOf, tol, c.value, source.value);
      AsFloatMeans(floatOf, source.value);
    }
  }

  /** One verdict per claim, in order, with the claim's text and value and its source, and judged by them alone. */
  lemma VerdictsAre(floatOf: string -> Option<real>, tol: real, resolver: Claim -> Option<Value>, cs: seq<Claim>)
    ensures |Judged(floatOf, tol, resolver, cs)| == |cs|
    ensures forall i | 0 <= i < |cs| ::
              JudgedRight(floatOf, tol, cs[i], resolver(cs[i]), Judged(floatOf, tol, resolver, cs)[i])
  {
    forall i | 0 <= i < |cs|
      ensures JudgedRight(floatOf, tol, cs[i], resolver(cs[i]), Judged(floatOf, tol, resolver, cs)[i])
    {
      JudgeMeans(floatOf, tol, cs[i], resolver(cs[i]));
    }
  }

  /** A claim off its source by the factor 1 + j is verified exactly when |j| is within tol times max(|1 + j|, 1). */
  lemma ScaledClaim(floatOf: string -> Option<real>, tol: real, resolver: Claim -> Option<Value>, cs: seq<Claim>,
                    i: nat, truth: real, j: real)
    requires i < |cs| && 0.0 <= tol && Abs(truth) >= 0.000000000001
    requires cs[i].value == Num(truth * (1.0 + j)) && resolver(cs[i]) == Some(Num(truth))
    ensures Judged(floatOf, tol, resolver, cs)[i].status
            == if Abs(j) <= tol * Max(Abs(1.0 + j), 1.0) then Verified else Incorrect
  {
    ToleranceExact(tol, truth, j);
    assert truth * (1.0 + j) == truth ==> Close(tol, truth * (1.0 + j), truth);
  }

  // ----- The answer -----

  ghost predicate Supported(floatOf: string -> Option<real>, tol: real, resolver: Claim -> Option<Value>, c: Claim)
  {
    resolver(c).Some? && Agrees(floatOf, tol, c, resolver(c).value)
  }

  ghost predicate Contradicted(floatOf: string -> Option<real>, tol: real, resolver: Claim -> Option<Value>, c: Claim)
  {
    resolver(c).Some? && !Agrees(floatOf, tol, c, resolver(c).value)
  }

  /** The positions of the claims that agree with their source. */
  ghost function Agreeing(floatOf: string -> Option<real>, tol: real, resolver: Claim -> Option<Value>,
                          cs: seq<Claim>): set<nat>
  {
    set i: nat | i < |cs| && Supported(floatOf, tol, resolver, cs[i])
  }

  ghost function PositionsOf(status: Status, vs: seq<ClaimVerdict>): set<nat>
  {
    set i: nat | i < |vs| && vs[i].status == status
  }

  lemma {:induction false} CountIsCardinality(status: Status, vs: seq<ClaimVerdict>)
    ensures CountOf(status, vs) == |PositionsOf(status, vs)|
  {
    if vs == [] {
      assert PositionsOf(status, vs) == {};
    } else {
      var before, last := vs[..|vs| - 1], vs[|vs| - 1];
      CountIsCardinality(status, before);
      SplitLast(vs);
      PositionsStep(status, before, last);
    }
  }

  lemma PositionsStep(status: Status, vs: seq<ClaimVerdict>, last: ClaimVerdict)
    ensures |vs| !in PositionsOf(status, vs)
    ensures PositionsOf(status, vs + [last])
            == if last.status == status then PositionsOf(status, vs) + {|vs|} else PositionsOf(status, vs)
  {
    assert forall i | 0 <= i < |vs| :: (vs + [last])[i] == vs[i];
  }

  /**
    An answer passes exactly when it has no claims, or no claim is contradicted by its source and the
    claims that agree with theirs are at least the threshold's share of all.
   */
  lemma AnswerPassesIff(floatOf: string -> Option<real>, tol: real, resolver: Claim -> Option<Value>, cs: seq<Claim>,
                        threshold: real)
    ensures Passed(Judged(floatOf, tol, resolver, cs), threshold) <==>
            || cs == []
            || ((forall i | 0 <= i < |cs| :: !Contradicted(floatOf, tol, resolver, cs[i]))
                && |Agreeing(floatOf, tol, resolver, cs)| as real >= threshold * |cs| as real)
  {
    var vs := Judged(floatOf, tol, resolver, cs);
    PassedMeans(vs, threshold);
    NoIncorrect(vs);
    CountIsCardinality(Verified, vs);
    StatusesAre(floatOf, tol, resolver, cs);
  }

  lemma StatusesAre(floatOf: string -> Option<real>, tol: real, resolver: Claim -> Option<Value>, cs: seq<Claim>)
    ensures var vs := Judged(floatOf, tol, resolver, cs);
            && |vs| == |cs| && PositionsOf(Verified, vs) == Agreeing(floatOf, tol, resolver, cs)
            && forall i | 0 <= i < |cs| :: vs[i].status == Incorrect <==> Contradicted(floatOf, tol, resolver, cs[i])
  {
    VerdictsAre(floatOf, tol, resolver, cs);
  }

  /** At threshold one: exactly when every claim agrees with a source. */
  lemma FullAnswerPassesIff(floatOf: string -> Option<real>, tol: real, resolver: Claim -> Option<Value>,
                            cs: seq<Claim>)
    ensures Passed(Judged(floatOf, tol, resolver, cs), 1.0) <==>
            forall i | 0 <= i < |cs| :: Supported(floatOf, tol, resolver, cs[i])
  {
    VerdictsAre(floatOf, tol, resolver, cs);
    FullThreshold(Judged(floatOf, tol, resolver, cs));
  }

  // ----- Where claims come from -----

  function Found(m: Matches, kind: Kind): seq<Match>
  {
    match kind
    case Percent => m.percents
    case Currency => m.currencies
    case Float => m.floats
    case Int => m.ints
    case Range => m.ranges
    case Expression => m.expressions
  }

  /** Percentages are looked for first, expressions last. */
  function Turn(kind: Kind): nat
  {
    match kind
    case Percent => 0
    case Currency => 1
    case Float => 2
    case Int => 3
    case Range => 4
    case Expression => 5
  }

  /** A claim repeats the text and span of its match; its value is the text's, by kind. */
  ghost predicate Makes(valueOf: string -> real, kind: Kind, found: Match, c: Claim)
  {
    && c.text == found.text && c.span == found.span && c.kind == kind
    && match kind
       case Range =>
         c.value.Interval? && RangeParser.RangeOf(found.text) == Some((c.value.low, c.value.high))
       case Expression => c.value == ExprText(RangeParser.StripRight(RangeParser.StripLeft(found.text)))
       case _ => c.value == Num(valueOf(found.text))
  }

  lemma ClaimIs(valueOf: string -> real, kind: Kind, found: Match)
    ensures forall c :: ClaimOf(valueOf, Candidate(kind, found)) == Some(c) <==> Makes(valueOf, kind, found, c)
  {
  }

  /** No pattern that is tried before has a match of the same span, nor has this one before `i`. */
  ghost predicate FirstOfSpan(m: Matches, kind: Kind, i: nat)
    requires i < |Found(m, kind)|
  {
    && (forall k | 0 <= k < i :: Found(m, kind)[k].span != Found(m, kind)[i].span)
    && forall other, k | Turn(other) < Turn(kind) && 0 <= k < |Found(m, other)| ::
         Found(m, other)[k].span != Found(m, kind)[i].span
  }

  /** Where the matches of the batch at `b` stand among all candidates. */
  function Offset(bs: seq<Batch>, b: nat): nat
    requires b <= |bs|
  {
    if b == 0 then 0 else Offset(bs, b - 1) + |bs[b - 1].ms|
  }

  lemma {:induction false} OffsetOfPrefix(bs: seq<Batch>, n: nat, b: nat)
    requires b <= n <= |bs|
    ensures Offset(bs[..n], b) == Offset(bs, b) <= Offset(bs, n)
    decreases n + b
  {
    if b > 0 {
      OffsetOfPrefix(bs, n, b - 1);
    }
    if b < n {
      OffsetOfPrefix(bs, n - 1, b);
    }
  }

  lemma {:induction false} FlatLength(bs: seq<Batch>)
    ensures |Flat(bs)| == Offset(bs, |bs|)
  {
    if bs != [] {
      FlatLength(bs[..|bs| - 1]);
      OffsetOfPrefix(bs, |bs| - 1, |bs| - 1);
    }
  }

  lemma {:induction false} FlatAt(bs: seq<Batch>, b: nat, i: nat)
    requires b < |bs| && i < |bs[b].ms|
    ensures Offset(bs, b) + i < |Flat(bs)| && Flat(bs)[Offset(bs, b) + i] == Candidate(bs[b].kind, bs[b].ms[i])
  {
    var before := bs[..|bs| - 1];
    FlatLength(before);
    OffsetOfPrefix(bs, |before|, if b < |before| then b else |before|);
    if b < |before| {
      FlatAt(before, b, i);
    }
  }

  lemma {:induction false} EveryCandidate(bs: seq<Batch>, p: nat) returns (b: nat, i: nat)
    requires p < |Flat(bs)|
    ensures b < |bs| && i < |bs[b].ms| && p == Offset(bs, b) + i
  {
    var before := bs[..|bs| - 1];
    FlatLength(before);
    OffsetOfPrefix(bs, |before|, |before|);
    if p < |Flat(before)| {
      b, i := EveryCandidate(before, p);
      OffsetOfPrefix(bs, |before|, b);
    } else {
      b, i := |before|, p - |Flat(before)|;
    }
  }

  lemma {:induction false} OffsetsInOrder(bs: seq<Batch>, a: nat, b: nat)
    requires a < b <= |bs|
    ensures Offset(bs, a) + |bs[a].ms| <= Offset(bs, b)
  {
    OffsetOfPrefix(bs, b, a + 1);
  }

  ghost predicate SpanIsNew(cs: seq<Candidate>, p: nat)
    requires p < |cs|
  {
    forall k | 0 <= k < p :: cs[k].found.span != cs[p].found.span
  }

  /** The same by batches: not before in its own, nor anywhere in an earlier one. */
  ghost predicate SpanIsNewIn(bs: seq<Batch>, b: nat, i: nat)
    requires b < |bs| && i < |bs[b].ms|
  {
    && (forall k | 0 <= k < i :: bs[b].ms[k].span != bs[b].ms[i].span)
    && forall a, k | 0 <= a < b && 0 <= k < |bs[a].ms| :: bs[a].ms[k].span != bs[b].ms[i].span
  }

  lemma {:induction false} NewIff(bs: seq<Batch>, b: nat, i: nat)
    requires b < |bs| && i < |bs[b].ms| && Offset(bs, b) + i < |Flat(bs)|
    ensures SpanIsNewIn(bs, b, i) <==> SpanIsNew(Flat(bs), Offset(bs, b) + i)
  {
    FlatAt(bs, b, i);
    if SpanIsNewIn(bs, b, i) {
      forall k | 0 <= k < Offset(bs, b) + i
        ensures Flat(bs)[k].found.span != bs[b].ms[i].span
      {
        EarlierIsOther(bs, b, i, k);
      }
    }
    if SpanIsNew(Flat(bs), Offset(bs, b) + i) {
      NewEverywhere(bs, b, i);
    }
  }

  lemma {:induction false} NewEverywhere(bs: seq<Batch>, b: nat, i: nat)
    requires b < |bs| && i < |bs[b].ms| && Offset(bs, b) + i < |Flat(bs)| && SpanIsNew(Flat(bs), Offset(bs, b) + i)
    ensures SpanIsNewIn(bs, b, i)
  {
    FlatAt(bs, b, i);
    forall k | 0 <= k < i
      ensures bs[b].ms[k].span != bs[b].ms[i].span
    {
      FlatAt(bs, b, k);
    }
    forall a, k | 0 <= a < b && 0 <= k < |bs[a].ms|
      ensures bs[a].ms[k].span != bs[b].ms[i].span
    {
      OffsetsInOrder(bs, a, b);
      FlatAt(bs, a, k);
    }
  }

  lemma {:induction false} EarlierIsOther(bs: seq<Batch>, b: nat, i: nat, k: nat)
    requires b < |bs| && i < |bs[b].ms| && SpanIsNewIn(bs, b, i) && k < Offset(bs, b) + i < |Flat(bs)|
    ensures Flat(bs)[k].found.span != bs[b].ms[i].span
  {
    var a, j := EveryCandidate(bs, k);
    FlatAt(bs, a, j);
    if b < a {
      OffsetsInOrder(bs, b, a);
    }
  }

  function KindAt(b: nat): Kind
    requires b < 6
  {
    [Percent, Currency, Float, Int, Range, Expression][b]
  }

  lemma BatchOf(m: Matches, kind: Kind)
    ensures Batches(m)[Turn(kind)] == Batch(kind, Found(m, kind)) && KindAt(Turn(kind)) == kind
    ensures forall b | 0 <= b < 6 :: Turn(KindAt(b)) == b
  {
  }

  lemma FirstIff(m: Matches, kind: Kind, i: nat)
    requires i < |Found(m, kind)|
    ensures FirstOfSpan(m, kind, i) <==> SpanIsNewIn(Batches(m), Turn(kind), i)
  {
    var bs := Batches(m);
    BatchOf(m, kind);
    if FirstOfSpan(m, kind, i) {
      forall a, k | 0 <= a < Turn(kind) && 0 <= k < |bs[a].ms|
        ensures bs[a].ms[k].span != bs[Turn(kind)].ms[i].span
      {
        BatchOf(m, KindAt(a));
        assert Found(m, KindAt(a))[k].span != Found(m, kind)[i].span;
      }
    }
    if SpanIsNewIn(bs, Turn(kind), i) {
      forall other, k | Turn(other) < Turn(kind) && 0 <= k < |Found(m, other)|
        ensures Found(m, other)[k].span != Found(m, kind)[i].span
      {
        BatchOf(m, other);
      }
    }
  }

  ghost predicate FoundFirst(m: Matches, valueOf: string -> real, kind: Kind, i: nat, c: Claim)
  {
    i < |Found(m, kind)| && FirstOfSpan(m, kind, i) && Makes(valueOf, kind, Found(m, kind)[i], c)
  }

  lemma ComesFromIs(valueOf: string -> real, cs: seq<Candidate>, p: nat, c: Claim)
    requires p < |cs|
    ensures ComesFrom(valueOf, cs, p, c) <==> ClaimOf(valueOf, cs[p]) == Some(c) && SpanIsNew(cs, p)
  {
  }

  lemma {:induction false} OriginAt(valueOf: string -> real, bs: seq<Batch>, b: nat, i: nat, c: Claim)
    requires b < |bs| && i < |bs[b].ms|
    ensures ComesFrom(valueOf, Flat(bs), Offset(bs, b) + i, c) <==>
            SpanIsNewIn(bs, b, i) && ClaimOf(valueOf, Candidate(bs[b].kind, bs[b].ms[i])) == Some(c)
  {
    FlatAt(bs, b, i);
    NewIff(bs, b, i);
    ComesFromIs(valueOf, Flat(bs), Offset(bs, b) + i, c);
  }

  lemma FoundFirstIff(m: Matches, valueOf: string -> real, kind: Kind, i: nat, c: Claim)
    requires i < |Found(m, kind)|
    ensures FoundFirst(m, valueOf, kind, i, c) <==>
            ComesFrom(valueOf, Candidates(m), Offset(Batches(m), Turn(kind)) + i, c)
  {
    BatchOf(m, kind);
    OriginAt(valueOf, Batches(m), Turn(kind), i, c);
    ClaimIs(valueOf, kind, Found(m, kind)[i]);
    FirstIff(m, kind, i);
  }

  lemma OriginIsFound(m: Matches, valueOf: string -> real, p: nat, c: Claim) returns (kind: Kind, i: nat)
    requires ComesFrom(valueOf, Candidates(m), p, c)
    ensures FoundFirst(m, valueOf, kind, i, c)
  {
    var b, k := EveryCandidate(Batches(m), p);
    kind, i := KindAt(b), k;
    BatchOf(m, kind);
    FoundFirstIff(m, valueOf, kind, i, c);
  }

  /**
    The claims are exactly those that the matches make which are the first of their span: before it neither
    its own pattern found the span nor one tried earlier.
   */
  lemma ExtractedIff(m: Matches, valueOf: string -> real, c: Claim)
    ensures c in Extracted(m, valueOf) <==> exists kind, i: nat :: FoundFirst(m, valueOf, kind, i, c)
  {
    ExtractedSpec(m, valueOf);
    if c in Extracted(m, valueOf) {
      var p: nat :| ComesFrom(valueOf, Candidates(m), p, c);
      var kind, i := OriginIsFound(m, valueOf, p, c);
    }
    if kind, i: nat :| FoundFirst(m, valueOf, kind, i, c) {
      FoundFirstIff(m, valueOf, kind, i, c);
    }
  }

  // ----- The order of the claims -----

  /** Where a span is first found. */
  function FirstAt(cs: seq<Candidate>, span: Span): nat
  {
    if cs == [] || cs[0].found.span == span then 0 else 1 + FirstAt(cs[1..], span)
  }

  lemma {:induction false} FirstAtIs(cs: seq<Candidate>, i: nat)
    requires i < |cs| && SpanIsNew(cs, i)
    ensures FirstAt(cs, cs[i].found.span) == i
  {
    if i > 0 {
      assert SpanIsNew(cs[1..], i - 1);
      FirstAtIs(cs[1..], i - 1);
      assert cs[0].found.span != cs[i].found.span;
    }
  }

  /** By start; of claims that start together, the one found first. */
  ghost predicate InOrder(all: seq<Candidate>, claims: seq<Claim>)
  {
    forall i, k | 0 <= i < k < |claims| :: Precedes(all, claims[i], claims[k])
  }

  predicate Precedes(all: seq<Candidate>, a: Claim, b: Claim)
  {
    || a.span.start < b.span.start
    || (a.span.start == b.span.start && FirstAt(all, a.span) < FirstAt(all, b.span))
  }

  /** All of these claims were found before this place. */
  ghost predicate FoundBefore(all: seq<Candidate>, claims: seq<Claim>, n: nat)
  {
    forall c | c in claims :: FirstAt(all, c.span) < n
  }

  lemma {:induction false} InsertInOrder(all: seq<Candidate>, c: Claim, claims: seq<Claim>)
    requires InOrder(all, claims) && FoundBefore(all, claims, FirstAt(all, c.span))
    ensures InOrder(all, InsertByStart(c, claims))
    ensures forall d :: d in InsertByStart(c, claims) <==> d == c || d in claims
  {
    if claims != [] && claims[|claims| - 1].span.start > c.span.start {
      var before, last := claims[..|claims| - 1], claims[|claims| - 1];
      InsertInOrder(all, c, before);
      assert claims == before + [last];
      forall d | d in InsertByStart(c, before)
        ensures Precedes(all, d, last)
      {
        if d != c {
          var i :| 0 <= i < |before| && before[i] == d;
          assert Precedes(all, claims[i], claims[|before|]);
        }
      }
      LastInOrder(all, InsertByStart(c, before), last);
    } else {
      forall d | d in claims
        ensures Precedes(all, d, c)
      {
        var i :| 0 <= i < |claims| && claims[i] == d;
        assert i < |claims| - 1 ==> Precedes(all, claims[i], claims[|claims| - 1]);
      }
      LastInOrder(all, claims, c);
    }
  }

  lemma LastInOrder(all: seq<Candidate>, claims: seq<Claim>, c: Claim)
    requires InOrder(all, claims) && forall d | d in claims :: Precedes(all, d, c)
    ensures InOrder(all, claims + [c])
  {
  }

  /** One more candidate adds nothing, or the claim it makes when it is the first of its span. */
  lemma KeptStep(valueOf: string -> real, all: seq<Candidate>, n: nat) returns (c: Option<Claim>)
    requires n < |all|
    ensures c == None ==> Kept(valueOf, all[..n + 1]) == Kept(valueOf, all[..n])
    ensures c.Some? ==> Kept(valueOf, all[..n + 1]) == Kept(valueOf, all[..n]) + [c.value]
                        && FirstAt(all, c.value.span) == n
  {
    assert all[..n + 1] == all[..n] + [all[n]];
    OneMore(valueOf, all[..n], all[n]);
    c := if all[n].found.span in SpansOf(all[..n]) then None else ClaimOf(valueOf, all[n]);
    if c.Some? {
      SpanStillNew(all, n);
      FirstAtIs(all, n);
      ClaimIs(valueOf, all[n].kind, all[n].found);
      assert Makes(valueOf, all[n].kind, all[n].found, c.value);
    }
  }

  lemma SortStep(claims: seq<Claim>, c: Claim)
    ensures SortByStart(claims + [c]) == InsertByStart(c, SortByStart(claims))
  {
    assert (claims + [c])[..|claims|] == claims;
  }

  lemma InOrderStep(valueOf: string -> real, all: seq<Candidate>, n: nat)
    requires n < |all|
    requires InOrder(all, SortByStart(Kept(valueOf, all[..n])))
    requires FoundBefore(all, SortByStart(Kept(valueOf, all[..n])), n)
    ensures InOrder(all, SortByStart(Kept(valueOf, all[..n + 1])))
    ensures FoundBefore(all, SortByStart(Kept(valueOf, all[..n + 1])), n + 1)
  {
    var c := KeptStep(valueOf, all, n);
    if c.Some? {
      SortStep(Kept(valueOf, all[..n]), c.value);
      InsertInOrder(all, c.value, SortByStart(Kept(valueOf, all[..n])));
    }
  }

  lemma {:induction false} SortInOrder(valueOf: string -> real, all: seq<Candidate>, n: nat)
    requires n <= |all|
    ensures InOrder(all, SortByStart(Kept(valueOf, all[..n])))
    ensures FoundBefore(all, SortByStart(Kept(valueOf, all[..n])), n)
  {
    if n > 0 {
      SortInOrder(valueOf, all, n - 1);
      InOrderStep(valueOf, all, n - 1);
    }
  }

  lemma SpanStillNew(all: seq<Candidate>, i: nat)
    requires i < |all| && all[i].found.span !in SpansOf(all[..i])
    ensures SpanIsNew(all, i)
  {
    assert forall k | 0 <= k < i :: all[..i][k].found.span in SpansOf(all[..i]);
  }

  /** The claims come by start, and those that start together in the order in which they were found. */
  lemma ExtractedInOrder(m: Matches, valueOf: string -> real)
    ensures InOrder(Candidates(m), Extracted(m, valueOf))
  {
    SortInOrder(valueOf, Candidates(m), |Candidates(m)|);
    assert Candidates(m)[..|Candidates(m)|] == Candidates(m);
  }
}
