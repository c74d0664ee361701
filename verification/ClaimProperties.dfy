/** Tolerance bounds, aggregation of verdict lists, and the self-certifying pipeline end to end. */
module ClaimProperties {
  import opened Text
  import opened Helpers
  import opened Claims
  import RangeParser
  import RangeRoundTrip

  // ----- Extraction -----

  ghost predicate SortedByStart(cs: seq<Claim>)
  {
    forall i, k | 0 <= i < k < |cs| :: cs[i].span.start <= cs[k].span.start
  }

  ghost predicate DistinctSpans(cs: seq<Claim>)
  {
    forall i, k | 0 <= i < k < |cs| :: cs[i].span != cs[k].span
  }

  lemma {:induction false} InsertSpec(c: Claim, cs: seq<Claim>)
    requires SortedByStart(cs)
    ensures SortedByStart(InsertByStart(c, cs))
    ensures multiset(InsertByStart(c, cs)) == multiset(cs) + multiset{c}
  {
    if cs != [] && cs[|cs| - 1].span.start > c.span.start {
      var before, last := cs[..|cs| - 1], cs[|cs| - 1];
      InsertSpec(c, before);
      assert cs == before + [last];
      var r := InsertByStart(c, before);
      forall i | 0 <= i < |r|
        ensures r[i].span.start <= last.span.start
      {
        assert r[i] in multiset(r);
        assert r[i] == c || r[i] in before;
      }
      SnocSorted(r, last);
    } else {
      SnocSorted(cs, c);
    }
  }

  lemma SnocSorted(cs: seq<Claim>, c: Claim)
    requires SortedByStart(cs) && forall i | 0 <= i < |cs| :: cs[i].span.start <= c.span.start
    ensures SortedByStart(cs + [c])
  {
  }

  lemma {:induction false} SortSpec(cs: seq<Claim>)
    ensures SortedByStart(SortByStart(cs)) && multiset(SortByStart(cs)) == multiset(cs)
  {
    if cs != [] {
      SortSpec(cs[..|cs| - 1]);
      InsertSpec(cs[|cs| - 1], SortByStart(cs[..|cs| - 1]));
      assert cs == cs[..|cs| - 1] + [cs[|cs| - 1]];
    }
  }

  /** Where a kept claim comes from. */
  ghost predicate ComesFrom(valueOf: string -> real, cs: seq<Candidate>, i: nat, c: Claim)
  {
    && i < |cs| && ClaimOf(valueOf, cs[i]) == Some(c)
    && forall k | 0 <= k < i :: cs[k].found.span != cs[i].found.span
  }

  lemma OriginStep(valueOf: string -> real, cs: seq<Candidate>, last: Candidate, i: nat, c: Claim)
    ensures i < |cs| ==> (ComesFrom(valueOf, cs + [last], i, c) <==> ComesFrom(valueOf, cs, i, c))
    ensures ComesFrom(valueOf, cs + [last], |cs|, c)
            <==> ClaimOf(valueOf, last) == Some(c) && last.found.span !in SpansOf(cs)
  {
    assert forall k | 0 <= k < |cs| :: (cs + [last])[k] == cs[k];
  }

  /** The kept claims are those of the first candidate of each span. */
  lemma {:induction false} KeptMembers(valueOf: string -> real, cs: seq<Candidate>, c: Claim)
    ensures c in Kept(valueOf, cs) <==> exists i: nat :: ComesFrom(valueOf, cs, i, c)
  {
    if cs != [] {
      var before, last := cs[..|cs| - 1], cs[|cs| - 1];
      assert cs == before + [last];
      KeptMembers(valueOf, before, c);
      if c in Kept(valueOf, before) {
        var i: nat :| ComesFrom(valueOf, before, i, c);
        OriginStep(valueOf, before, last, i, c);
      }
      OriginStep(valueOf, before, last, |before|, c);
      forall i: nat | ComesFrom(valueOf, cs, i, c)
        ensures c in Kept(valueOf, cs)
      {
        OriginStep(valueOf, before, last, i, c);
      }
    }
  }

  lemma {:induction false} KeptDistinct(valueOf: string -> real, cs: seq<Candidate>)
    ensures DistinctSpans(Kept(valueOf, cs))
    ensures forall k | 0 <= k < |Kept(valueOf, cs)| :: Kept(valueOf, cs)[k].span in SpansOf(cs)
  {
    if cs != [] {
      var before, last := cs[..|cs| - 1], cs[|cs| - 1];
      assert cs == before + [last];
      KeptDistinct(valueOf, before);
      OneMore(valueOf, before, last);
    }
  }

  lemma DistinctIsMultiset(p: seq<Claim>, q: seq<Claim>)
    requires multiset(p) == multiset(q) && DistinctSpans(p)
    ensures DistinctSpans(q)
  {
    forall i, k | 0 <= i < k < |q|
      ensures q[i].span != q[k].span
    {
      assert q[i] in multiset(p) && q[k] in multiset(p);
      OnlyOnce(p, q[i]);
      if q[i] == q[k] {
        TwoOccurrences(q, i, k);
      }
    }
  }

  lemma TwoOccurrences(q: seq<Claim>, i: nat, k: nat)
    requires i < k < |q| && q[i] == q[k]
    ensures multiset(q)[q[i]] >= 2
  {
    assert q == q[..i] + [q[i]] + q[i + 1..k] + [q[k]] + q[k + 1..];
  }

  lemma {:induction false} OnlyOnce(p: seq<Claim>, c: Claim)
    requires DistinctSpans(p)
    ensures multiset(p)[c] <= 1
    ensures forall d | d in p && c in p && d.span == c.span :: d == c
  {
    if p != [] {
      var before, last := p[..|p| - 1], p[|p| - 1];
      OnlyOnce(before, c);
      assert p == before + [last];
      if last == c {
        assert c !in before;
      }
    }
  }

  /**
    Extraction gives the claims in order of their start, one per span, and exactly those of the first
    match of each span, ranges that do not parse left out; a range claim has low below high.
   */
  lemma ExtractedSpec(m: Matches, valueOf: string -> real)
    ensures SortedByStart(Extracted(m, valueOf)) && DistinctSpans(Extracted(m, valueOf))
    ensures forall c :: c in Extracted(m, valueOf) <==> exists i: nat :: ComesFrom(valueOf, Candidates(m), i, c)
    ensures forall c | c in Extracted(m, valueOf) :: ProperlyTyped(c)
  {
    var cs := Candidates(m);
    KeptDistinct(valueOf, cs);
    SortedPermutation(Kept(valueOf, cs));
    forall c
      ensures c in Extracted(m, valueOf) <==> exists i: nat :: ComesFrom(valueOf, cs, i, c)
      ensures c in Extracted(m, valueOf) ==> ProperlyTyped(c)
    {
      KeptMembers(valueOf, cs, c);
      if c in Extracted(m, valueOf) {
        var i: nat :| ComesFrom(valueOf, cs, i, c);
        ClaimIsProperlyTyped(valueOf, cs[i]);
      }
    }
  }

  /** A match of two amounts makes a claim exactly when the parser splits at its separator and the values differ. */
  lemma RangeMatchMakesClaimIff(valueOf: string -> real, lead: string, a: RangeRoundTrip.Amount,
                                j: RangeRoundTrip.Separator, b: RangeRoundTrip.Amount, trail: string, span: Span)
    requires a.Valid() && b.Valid() && j.Valid() && RangeRoundTrip.Blank(lead) && RangeRoundTrip.Blank(trail)
    ensures var c := Candidate(Range, Match(RangeRoundTrip.RangeText(lead, a, j, b, trail), span));
            ClaimOf(valueOf, c).Some? <==> j.Splits() && a.Value() != b.Value()
  {
    RangeRoundTrip.ReadsSomethingIff(lead, a, j, b, trail);
  }

  /** The span of a match that makes no claim counts as seen: no later match of the same span makes one either. */
  lemma DroppedMatchHidesSpan(valueOf: string -> real, cs: seq<Candidate>, c: Candidate, later: Candidate)
    requires ClaimOf(valueOf, c).None? && later.found.span == c.found.span
    ensures Kept(valueOf, cs + [c] + [later]) == Kept(valueOf, cs)
  {
    OneMore(valueOf, cs, c);
    OneMore(valueOf, cs + [c], later);
  }

  /** Ranges and only ranges carry an interval, with low below high. */
  predicate ProperlyTyped(c: Claim)
  {
    && (c.kind == Range <==> c.value.Interval?)
    && (c.value.Interval? ==> c.value.low < c.value.high)
  }

  lemma ClaimIsProperlyTyped(valueOf: string -> real, c: Candidate)
    ensures ClaimOf(valueOf, c).Some? ==> ProperlyTyped(ClaimOf(valueOf, c).value)
  {
  }

  lemma SortedPermutation(cs: seq<Claim>)
    ensures SortedByStart(SortByStart(cs))
    ensures forall c :: c in SortByStart(cs) <==> c in cs
    ensures DistinctSpans(cs) ==> DistinctSpans(SortByStart(cs))
  {
    SortSpec(cs);
    forall c
      ensures c in SortByStart(cs) <==> c in cs
    {
      assert c in multiset(SortByStart(cs)) <==> c in multiset(cs);
    }
    if DistinctSpans(cs) {
      DistinctIsMultiset(cs, SortByStart(cs));
    }
  }

  // ----- Tolerance -----

  lemma AbsProduct(x: real, y: real)
    ensures Abs(x * y) == Abs(x) * Abs(y)
  {
    if x < 0.0 {
      assert (-x) * y == -(x * y);
    }
    if y < 0.0 {
      assert x * (-y) == -(x * y);
    }
    if x < 0.0 && y < 0.0 {
      assert (-x) * (-y) == x * y;
      assert x * y > 0.0;
    } else if x >= 0.0 && y >= 0.0 {
      assert x * y >= 0.0;
    }
  }

  lemma ScaleMax(t: real, a: real)
    requires t >= 0.0 && a >= 0.0
    ensures Max(t * a, t) == t * Max(a, 1.0)
  {
    assert t * (a - 1.0) == t * a - t;
    if a < 1.0 {
      CancelNonNegative(t, a, 1.0);
    } else {
      CancelNonNegative(t, 1.0, a);
    }
  }

  lemma CancelPositive(t: real, x: real, y: real)
    requires t > 0.0
    ensures t * x <= t * y <==> x <= y
  {
    if x <= y {
      assert t * (y - x) >= 0.0;
    } else {
      assert t * (x - y) > 0.0;
    }
  }

  /** A claim off the truth by the factor 1 + j is accepted exactly when |j| is within tol times max(|1 + j|, 1). */
  lemma ToleranceExact(tol: real, truth: real, j: real)
    requires 0.0 <= tol && Abs(truth) >= 0.000000000001
    ensures Close(tol, truth * (1.0 + j), truth) <==> Abs(j) <= tol * Max(Abs(1.0 + j), 1.0)
  {
    var t, m := Abs(truth), Max(Abs(1.0 + j), 1.0);
    OffBy(truth, j);
    DenominatorIs(truth, j);
    RatioBound(t, Abs(j), m, tol);
  }

  lemma DenominatorIs(truth: real, j: real)
    requires Abs(truth) >= 0.000000000001
    ensures Max(Max(Abs(truth * (1.0 + j)), Abs(truth)), 0.000000000001) == Abs(truth) * Max(Abs(1.0 + j), 1.0)
  {
    AbsProduct(truth, 1.0 + j);
    ScaleMax(Abs(truth), Abs(1.0 + j));
    CancelNonNegative(Abs(truth), 1.0, Max(Abs(1.0 + j), 1.0));
  }

  lemma OffBy(truth: real, j: real)
    requires truth != 0.0
    ensures Abs(truth * (1.0 + j) - truth) == Abs(truth) * Abs(j)
    ensures truth * (1.0 + j) == truth <==> j == 0.0
  {
    assert truth * (1.0 + j) - truth == truth * j;
    AbsProduct(truth, j);
  }

  lemma RatioBound(t: real, x: real, m: real, tol: real)
    requires t > 0.0 && m >= 1.0
    ensures t * m > 0.0 && ((t * x) / (t * m) <= tol <==> x <= tol * m)
  {
    CancelNonNegative(t, 1.0, m);
    QuotientAtMost(t * x, t * m, tol);
    assert tol * (t * m) == t * (tol * m);
    CancelPositive(t, x, tol * m);
  }

  /** Within the tolerance a claim is accepted; beyond tol / (1 - tol) it is rejected. */
  lemma ToleranceBounds(tol: real, truth: real, j: real)
    requires 0.0 <= tol < 1.0 && Abs(truth) >= 0.000000000001
    ensures Abs(j) <= tol ==> Close(tol, truth * (1.0 + j), truth)
    ensures Abs(j) > tol / (1.0 - tol) ==> !Close(tol, truth * (1.0 + j), truth)
  {
    ToleranceExact(tol, truth, j);
    var m := Max(Abs(1.0 + j), 1.0);
    CancelNonNegative(tol, 1.0, m);
    if Abs(j) > tol / (1.0 - tol) {
      Exceeds(tol, Abs(j), m);
    }
  }

  lemma Exceeds(tol: real, x: real, m: real)
    requires 0.0 <= tol < 1.0 && x > tol / (1.0 - tol) && m <= 1.0 + x
    ensures x > tol * m
  {
    StrictQuotient(tol, 1.0 - tol, x);
    CancelNonNegative(tol, m, 1.0 + x);
    Distributes(tol, x);
  }

  lemma Distributes(tol: real, x: real)
    ensures x * (1.0 - tol) == x - tol * x && tol * (1.0 + x) == tol + tol * x
  {
  }

  lemma StrictQuotient(x: real, d: real, k: real)
    requires d > 0.0 && x / d < k
    ensures x < k * d
  {
    assert x == (x / d) * d;
    assert (k - x / d) * d > 0.0;
  }

  lemma CancelNonNegative(t: real, x: real, y: real)
    requires t >= 0.0 && x <= y
    ensures t * x <= t * y
  {
    assert t * (y - x) >= 0.0;
  }

  /** Acceptance is symmetric, and a looser tolerance accepts no less. */
  lemma CloseIsSymmetricAndMonotone(tol: real, looser: real, x: real, y: real)
    requires tol <= looser
    ensures Close(tol, x, y) == Close(tol, y, x)
    ensures Close(tol, x, y) ==> Close(looser, x, y)
  {
    assert Abs(x - y) == Abs(y - x);
  }

  // ----- Aggregation -----

  lemma {:induction false} CountConcat(status: Status, a: seq<ClaimVerdict>, b: seq<ClaimVerdict>)
    ensures CountOf(status, a + b) == CountOf(status, a) + CountOf(status, b)
  {
    if b == [] {
      assert a + b == a;
    } else {
      assert (a + b)[..|a + b| - 1] == a + b[..|b| - 1];
      CountConcat(status, a, b[..|b| - 1]);
    }
  }

  lemma CoverageAtLeast(vs: seq<ClaimVerdict>, threshold: real)
    requires vs != []
    ensures Coverage(vs) >= threshold <==> CountOf(Verified, vs) as real >= threshold * |vs| as real
  {
    QuotientAtLeast(CountOf(Verified, vs) as real, |vs| as real, threshold);
  }

  predicate Reaches(verified: nat, total: nat, threshold: real)
  {
    verified as real >= threshold * total as real
  }

  lemma PassedMeans(vs: seq<ClaimVerdict>, threshold: real)
    ensures Passed(vs, threshold) <==>
            vs == [] || (CountOf(Incorrect, vs) == 0 && Reaches(CountOf(Verified, vs), |vs|, threshold))
  {
    if vs != [] {
      CoverageAtLeast(vs, threshold);
    }
  }

  lemma AddBounds(x: nat, m: nat, y: nat, n: nat, k: real)
    requires Reaches(x, m, k) && Reaches(y, n, k)
    ensures Reaches(x + y, m + n, k)
  {
    assert k * (m + n) as real == k * m as real + k * n as real;
  }

  /** Two passing lists concatenate to a passing list, at any threshold. */
  lemma PassingConcatenates(a: seq<ClaimVerdict>, b: seq<ClaimVerdict>, threshold: real)
    requires Passed(a, threshold) && Passed(b, threshold)
    ensures Passed(a + b, threshold)
  {
    if a == [] {
      assert a + b == b;
    } else if b == [] {
      assert a + b == a;
    } else {
      PassedMeans(a, threshold);
      PassedMeans(b, threshold);
      ReachesConcat(a, b, threshold);
      PassedMeans(a + b, threshold);
      CountConcat(Incorrect, a, b);
    }
  }

  lemma ReachesConcat(a: seq<ClaimVerdict>, b: seq<ClaimVerdict>, threshold: real)
    requires Reaches(CountOf(Verified, a), |a|, threshold) && Reaches(CountOf(Verified, b), |b|, threshold)
    ensures Reaches(CountOf(Verified, a + b), |a + b|, threshold)
  {
    CountConcat(Verified, a, b);
    AddBounds(CountOf(Verified, a), |a|, CountOf(Verified, b), |b|, threshold);
  }

  lemma {:induction false} CountsAddUp(vs: seq<ClaimVerdict>)
    ensures CountOf(Verified, vs) + CountOf(Incorrect, vs) + CountOf(Unverified, vs) == |vs|
  {
    if vs != [] {
      CountsAddUp(vs[..|vs| - 1]);
    }
  }

  lemma {:induction false} AllVerified(vs: seq<ClaimVerdict>)
    ensures CountOf(Verified, vs) == |vs| <==> forall i | 0 <= i < |vs| :: vs[i].status == Verified
  {
    if vs != [] {
      AllVerified(vs[..|vs| - 1]);
      assert forall i | 0 <= i < |vs| - 1 :: vs[i] == vs[..|vs| - 1][i];
    }
  }

  /** At threshold one a list passes exactly when every claim is verified. */
  lemma FullThreshold(vs: seq<ClaimVerdict>)
    ensures Passed(vs, 1.0) <==> forall i | 0 <= i < |vs| :: vs[i].status == Verified
  {
    AllVerified(vs);
    CountsAddUp(vs);
    if vs != [] {
      CoverageAtLeast(vs, 1.0);
    }
  }

  /** At threshold one a concatenation passes exactly when both parts do. */
  lemma FullThresholdConcatenates(a: seq<ClaimVerdict>, b: seq<ClaimVerdict>)
    ensures Passed(a + b, 1.0) <==> Passed(a, 1.0) && Passed(b, 1.0)
  {
    FullThreshold(a);
    FullThreshold(b);
    FullThreshold(a + b);
    assert forall i | 0 <= i < |a| :: (a + b)[i] == a[i];
    assert forall i | 0 <= i < |b| :: (a + b)[|a| + i] == b[i];
  }

  lemma CoverageIsFraction(vs: seq<ClaimVerdict>)
    ensures 0.0 <= Coverage(vs) <= 1.0
  {
    if vs != [] {
      CoverageAtLeast(vs, 0.0);
      QuotientAtMost(CountOf(Verified, vs) as real, |vs| as real, 1.0);
    }
  }

  // ----- Looser tolerance -----

  /** No verdict gets worse. */
  ghost predicate NoWorse(vs: seq<ClaimVerdict>, ws: seq<ClaimVerdict>)
  {
    && |vs| == |ws|
    && (forall i | 0 <= i < |vs| && vs[i].status == Verified :: ws[i].status == Verified)
    && (forall i | 0 <= i < |ws| && ws[i].status == Incorrect :: vs[i].status == Incorrect)
  }

  lemma {:induction false} NoWorseCounts(vs: seq<ClaimVerdict>, ws: seq<ClaimVerdict>)
    requires NoWorse(vs, ws)
    ensures CountOf(Verified, vs) <= CountOf(Verified, ws) && CountOf(Incorrect, ws) <= CountOf(Incorrect, vs)
  {
    if vs != [] {
      NoWorseCounts(vs[..|vs| - 1], ws[..|ws| - 1]);
    }
  }

  lemma LooserJudge(floatOf: string -> Option<real>, tol: real, looser: real, c: Claim, source: Option<Value>)
    requires tol <= looser
    ensures var v, w := Judge(floatOf, tol, c, source).status, Judge(floatOf, looser, c, source).status;
            (v == Verified ==> w == Verified) && (w == Incorrect ==> v == Incorrect)
  {
    if source.Some? && AsFloat(floatOf, c.value).Some? && AsFloat(floatOf, source.value).Some? {
      var x, y := AsFloat(floatOf, c.value).value, AsFloat(floatOf, source.value).value;
      CloseIsSymmetricAndMonotone(tol, looser, x, y);
    }
  }

  /** An answer that passes goes on passing under a looser tolerance, whatever its claims and sources. */
  lemma LooserTolerancePasses(floatOf: string -> Option<real>, tol: real, looser: real,
                              resolver: Claim -> Option<Value>, cs: seq<Claim>, threshold: real)
    requires tol <= looser && Passed(Judged(floatOf, tol, resolver, cs), threshold)
    ensures Passed(Judged(floatOf, looser, resolver, cs), threshold)
  {
    var vs, ws := Judged(floatOf, tol, resolver, cs), Judged(floatOf, looser, resolver, cs);
    forall i | 0 <= i < |cs|
      ensures (vs[i].status == Verified ==> ws[i].status == Verified)
      ensures (ws[i].status == Incorrect ==> vs[i].status == Incorrect)
    {
      LooserJudge(floatOf, tol, looser, cs[i], resolver(cs[i]));
    }
    NoWorseCounts(vs, ws);
    PassedMeans(vs, threshold);
    PassedMeans(ws, threshold);
  }

  // ----- The self-certifying pipeline -----

  function IdentitySource(c: Claim): Option<Value>
  {
    Some(c.value)
  }

  predicate IsRange(c: Claim)
  {
    c.kind == Range
  }

  lemma {:induction false} IdentityVerdicts(floatOf: string -> Option<real>, tol: real, cs: seq<Claim>)
    requires forall i | 0 <= i < |cs| :: IsRange(cs[i]) <==> cs[i].value.Interval?
    ensures var vs := Judged(floatOf, tol, IdentitySource, cs);
            && (forall i | 0 <= i < |cs| :: vs[i].status == if IsRange(cs[i]) then Incorrect else Verified)
            && (CountOf(Incorrect, vs) == 0 <==> forall i | 0 <= i < |cs| :: !IsRange(cs[i]))
  {
    var vs := Judged(floatOf, tol, IdentitySource, cs);
    NoIncorrect(vs);
  }

  lemma {:induction false} NoIncorrect(vs: seq<ClaimVerdict>)
    ensures CountOf(Incorrect, vs) == 0 <==> forall i | 0 <= i < |vs| :: vs[i].status != Incorrect
  {
    if vs != [] {
      NoIncorrect(vs[..|vs| - 1]);
      assert forall i | 0 <= i < |vs| - 1 :: vs[i] == vs[..|vs| - 1][i];
    }
  }

  /**
    When every claim is its own source, claims are judged one to one and in order, each verified unless
    it is a range, which is incorrect; so at a threshold of at most one the answer passes exactly when
    no range claim was found.
   */
  lemma IdentityPipeline(m: Matches, valueOf: string -> real, floatOf: string -> Option<real>, tol: real,
                         threshold: real)
    requires threshold <= 1.0
    ensures var cs := Extracted(m, valueOf);
            var vs := Judged(floatOf, tol, IdentitySource, cs);
            && |vs| == |cs|
            && (forall i | 0 <= i < |cs| :: vs[i].claim == cs[i].text)
            && (forall i | 0 <= i < |cs| :: vs[i].status == if IsRange(cs[i]) then Incorrect else Verified)
            && (Passed(vs, threshold) <==> forall i | 0 <= i < |cs| :: !IsRange(cs[i]))
            && 0.0 <= Coverage(vs) <= 1.0
  {
    ExtractedSpec(m, valueOf);
    IdentityPasses(floatOf, tol, Extracted(m, valueOf), threshold);
  }

  lemma IdentityPasses(floatOf: string -> Option<real>, tol: real, cs: seq<Claim>, threshold: real)
    requires threshold <= 1.0
    requires forall c | c in cs :: ProperlyTyped(c)
    ensures var vs := Judged(floatOf, tol, IdentitySource, cs);
            && (forall i | 0 <= i < |cs| :: vs[i].status == if IsRange(cs[i]) then Incorrect else Verified)
            && (Passed(vs, threshold) <==> forall i | 0 <= i < |cs| :: !IsRange(cs[i]))
            && 0.0 <= Coverage(vs) <= 1.0
  {
    var vs := Judged(floatOf, tol, IdentitySource, cs);
    assert forall i | 0 <= i < |cs| :: cs[i] in cs;
    IdentityVerdicts(floatOf, tol, cs);
    CoverageIsFraction(vs);
    if CountOf(Incorrect, vs) == 0 {
      FullThreshold(vs);
    }
  }
}
