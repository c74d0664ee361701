/**
  The rows of a benchmark run, pair by pair: each is explained by the prompts, the oracle, the first cache
  and the rows before it.
 */
module BenchRows {
  import opened Text
  import opened Helpers
  import opened RealLlmBench

  // ----- What the earlier rows say -----

  /** How many of the first `k` pairs were paid for: those that are not from the cache, failed ones included. */
  function Paid(rows: seq<Row>, k: nat): nat
    requires 2 * k <= |rows|
  {
    if k == 0 then 0 else if rows[2 * k - 2].cached then Paid(rows, k - 1) else Paid(rows, k - 1) + 1
  }

  /** The pair at `i` wrote its text into the cache under this key. */
  predicate Wrote(c: Config, ps: seq<Prompt>, rows: seq<Row>, key: string, i: nat)
    requires i < |ps| && 2 * i < |rows|
  {
    c.caching && !rows[2 * i].cached && !rows[2 * i].failed && c.keyOf(ps[i]) == key
  }

  ghost predicate LastWrite(c: Config, ps: seq<Prompt>, rows: seq<Row>, key: string, k: nat, i: nat)
    requires k <= |ps| && 2 * k <= |rows|
  {
    i < k && Wrote(c, ps, rows, key, i) && forall j: nat | i < j < k :: !Wrote(c, ps, rows, key, j)
  }

  /** After `k` pairs the cache has this text under this key: the latest written, or the one it began with. */
  ghost predicate Remembers(c: Config, cache: Cache, ps: seq<Prompt>, rows: seq<Row>, k: nat, key: string,
                            text: string)
    requires k <= |ps| && 2 * k <= |rows|
  {
    || (exists i: nat :: LastWrite(c, ps, rows, key, k, i) && rows[2 * i].text == text)
    || (key in cache && cache[key] == text && forall i: nat | i < k :: !Wrote(c, ps, rows, key, i))
  }

  ghost predicate Occurs(part: string, text: string)
  {
    exists before, after :: text == before + part + after
  }

  lemma ContainsMeans(text: string, part: string)
    ensures Contains(text, part) <==> Occurs(part, text)
  {
    if Contains(text, part) {
      var i :| 0 <= i <= |text| && part <= text[i..];
      assert text == text[..i] + part + text[i + |part|..];
    }
    if before, after :| text == before + part + after {
      assert text[|before|..] == part + after;
    }
  }

  // ----- One pair -----

  /** A pair with an answer: success is the expected text's occurrence, and the wrapped row also needs the gate. */
  ghost predicate Scored(c: Config, p: Prompt, naked: Row, wrapped: Row)
  {
    && !naked.failed && !wrapped.failed && wrapped.text == naked.text && wrapped.cached == naked.cached
    && (naked.success <==> Occurs(p.task.expected, naked.text)) && !naked.gatePassed
    && (wrapped.gatePassed <==> c.passes(naked.text))
    && (wrapped.success <==> naked.success && wrapped.gatePassed)
  }

  predicate Blank(naked: Row, wrapped: Row)
  {
    && naked == Row(Naked, naked.prompt, false, false, "", true, false)
    && wrapped == Row(Wrapped, naked.prompt, false, false, "", true, false)
  }

  /**
    The pair at `k`: from the cache exactly when the run resumes and its key is remembered, and then with the
    text remembered; else with the oracle's next answer, or blank when that is an exception.
   */
  ghost predicate PairIs(c: Config, cache: Cache, ps: seq<Prompt>, rows: seq<Row>, k: nat)
    requires k < |ps| && 2 * k + 2 <= |rows|
  {
    var naked, wrapped, key := rows[2 * k], rows[2 * k + 1], c.keyOf(ps[k]);
    && naked.mode == Naked && wrapped.mode == Wrapped && naked.prompt == wrapped.prompt == ps[k]
    && (naked.cached <==> c.caching && c.resume && exists text :: Remembers(c, cache, ps, rows, k, key, text))
    && if naked.cached then Remembers(c, cache, ps, rows, k, key, naked.text) && Scored(c, ps[k], naked, wrapped)
       else
         match c.answer(Paid(rows, k))
         case None => Blank(naked, wrapped)
         case Some(text) => naked.text == text && Scored(c, ps[k], naked, wrapped)
  }

  // ----- The run -----

  ghost predicate CacheIs(c: Config, cache: Cache, ps: seq<Prompt>, rows: seq<Row>, k: nat, now: Cache)
    requires k <= |ps| && 2 * k <= |rows|
  {
    forall key, text :: Has(now, key, text) <==> Remembers(c, cache, ps, rows, k, key, text)
  }

  predicate Has(cache: Cache, key: string, text: string)
  {
    key in cache && cache[key] == text
  }

  /** `n` pairs, each explained; as many paid calls as pairs paid for; and the cache that the pairs leave. */
  ghost predicate RunIs(c: Config, cache: Cache, ps: seq<Prompt>, s: State, n: nat)
  {
    && n <= |ps| && |s.rows| == 2 * n && (!s.aborted ==> n == |ps|)
    && s.calls == Paid(s.rows, n) && CacheIs(c, cache, ps, s.rows, n, s.cache)
    && forall k | 0 <= k < n :: PairIs(c, cache, ps, s.rows, k)
  }

  /** The longer rows and prompts say the same about the first `k` pairs. */
  lemma {:induction false} PaidOfPrefix(rows: seq<Row>, more: seq<Row>, k: nat)
    requires rows <= more && 2 * k <= |rows|
    ensures Paid(rows, k) == Paid(more, k)
  {
    if k > 0 {
      PaidOfPrefix(rows, more, k - 1);
    }
  }

  lemma RemembersOfPrefix(c: Config, cache: Cache, ps: seq<Prompt>, qs: seq<Prompt>, rows: seq<Row>, more: seq<Row>,
                          k: nat, key: string, text: string)
    requires ps <= qs && rows <= more && k <= |ps| && 2 * k <= |rows|
    ensures Remembers(c, cache, ps, rows, k, key, text) <==> Remembers(c, cache, qs, more, k, key, text)
  {
    assert forall i: nat | i < k :: Wrote(c, ps, rows, key, i) <==> Wrote(c, qs, more, key, i);
    assert forall i: nat | i < k :: LastWrite(c, ps, rows, key, k, i) <==> LastWrite(c, qs, more, key, k, i);
  }

  lemma PairOfPrefix(c: Config, cache: Cache, ps: seq<Prompt>, qs: seq<Prompt>, rows: seq<Row>, more: seq<Row>, k: nat)
    requires ps <= qs && rows <= more && k < |ps| && 2 * k + 2 <= |rows|
    ensures PairIs(c, cache, ps, rows, k) == PairIs(c, cache, qs, more, k)
  {
    PaidOfPrefix(rows, more, k);
    forall key, text
      ensures Remembers(c, cache, ps, rows, k, key, text) <==> Remembers(c, cache, qs, more, k, key, text)
    {
      RemembersOfPrefix(c, cache, ps, qs, rows, more, k, key, text);
    }
  }

  /** The latest write decides what is remembered of its key. */
  lemma RemembersStep(c: Config, cache: Cache, ps: seq<Prompt>, rows: seq<Row>, k: nat, key: string, text: string)
    requires k < |ps| && 2 * k + 2 <= |rows|
    ensures Remembers(c, cache, ps, rows, k + 1, key, text) <==>
            if Wrote(c, ps, rows, key, k) then text == rows[2 * k].text
            else Remembers(c, cache, ps, rows, k, key, text)
  {
    if Wrote(c, ps, rows, key, k) {
      assert LastWrite(c, ps, rows, key, k + 1, k);
    } else {
      assert forall i: nat :: LastWrite(c, ps, rows, key, k + 1, i) <==> LastWrite(c, ps, rows, key, k, i);
    }
  }

  /** The two rows that a step adds. */
  lemma StepAdds(c: Config, s: State, p: Prompt)
    requires !s.aborted
    ensures var t, n := Step(c, s, p), |s.rows|;
            && s.rows <= t.rows && |t.rows| == n + 2
            && t.rows[n].mode == Naked && t.rows[n + 1].mode == Wrapped
            && t.rows[n].prompt == t.rows[n + 1].prompt == p
            && (t.rows[n].cached <==> c.caching && c.resume && c.keyOf(p) in s.cache)
            && t.calls == s.calls + (if t.rows[n].cached then 0 else 1)
            && (t.aborted ==> t.rows[n].failed)
  {
  }

  lemma StepScores(c: Config, s: State, p: Prompt)
    requires !s.aborted
    ensures var t, n := Step(c, s, p), |s.rows|;
            && |t.rows| == n + 2
            && if t.rows[n].cached then
                 && c.keyOf(p) in s.cache && t.rows[n].text == s.cache[c.keyOf(p)]
                 && Scored(c, p, t.rows[n], t.rows[n + 1]) && t.cache == s.cache
               else
                 match c.answer(s.calls)
                 case None => Blank(t.rows[n], t.rows[n + 1]) && t.cache == s.cache
                 case Some(text) =>
                   && t.rows[n].text == text && Scored(c, p, t.rows[n], t.rows[n + 1])
                   && t.cache == if c.caching then s.cache[c.keyOf(p) := text] else s.cache
  {
    if c.Reads() && c.keyOf(p) in s.cache {
      ContainsMeans(s.cache[c.keyOf(p)], p.task.expected);
    } else if c.answer(s.calls).Some? {
      ContainsMeans(c.answer(s.calls).value, p.task.expected);
    }
  }

  /** One more prompt on top of a run that is explained. */
  lemma StepIs(c: Config, cache: Cache, ps: seq<Prompt>, s: State, p: Prompt)
    requires !s.aborted && RunIs(c, cache, ps, s, |ps|)
    ensures RunIs(c, cache, ps + [p], Step(c, s, p), |ps| + 1)
  {
    var t, n, qs := Step(c, s, p), |ps|, ps + [p];
    StepAdds(c, s, p);
    StepScores(c, s, p);
    PaidOfPrefix(s.rows, t.rows, n);
    forall k | 0 <= k < n
      ensures PairIs(c, cache, qs, t.rows, k)
    {
      PairOfPrefix(c, cache, ps, qs, s.rows, t.rows, k);
    }
    PrefixCacheIs(c, cache, ps, qs, s.rows, t.rows, n, s.cache);
    NewPairIs(c, cache, qs, s, t.rows, n);
    NewCacheIs(c, cache, qs, t.rows, n, s.cache, t.cache);
  }

  lemma PrefixCacheIs(c: Config, cache: Cache, ps: seq<Prompt>, qs: seq<Prompt>, rows: seq<Row>, more: seq<Row>,
                      k: nat, now: Cache)
    requires ps <= qs && rows <= more && k <= |ps| && 2 * k <= |rows| && CacheIs(c, cache, ps, rows, k, now)
    ensures CacheIs(c, cache, qs, more, k, now)
  {
    forall key, text
      ensures Remembers(c, cache, ps, rows, k, key, text) <==> Remembers(c, cache, qs, more, k, key, text)
    {
      RemembersOfPrefix(c, cache, ps, qs, rows, more, k, key, text);
    }
  }

  lemma NewPairIs(c: Config, cache: Cache, qs: seq<Prompt>, s: State, rows: seq<Row>, n: nat)
    requires !s.aborted && n < |qs| && |s.rows| == 2 * n && rows == Step(c, s, qs[n]).rows && |rows| == 2 * n + 2
    requires s.calls == Paid(rows, n) && CacheIs(c, cache, qs, rows, n, s.cache)
    ensures PairIs(c, cache, qs, rows, n)
  {
    StepAdds(c, s, qs[n]);
    StepScores(c, s, qs[n]);
    KnownIff(c, cache, qs, rows, n, s.cache, c.keyOf(qs[n]));
  }

  lemma KnownIff(c: Config, cache: Cache, ps: seq<Prompt>, rows: seq<Row>, k: nat, now: Cache, key: string)
    requires k <= |ps| && 2 * k <= |rows| && CacheIs(c, cache, ps, rows, k, now)
    ensures key in now <==> exists text :: Remembers(c, cache, ps, rows, k, key, text)
    ensures key in now ==> Remembers(c, cache, ps, rows, k, key, now[key])
  {
    assert key in now ==> Has(now, key, now[key]);
  }

  lemma NewCacheIs(c: Config, cache: Cache, qs: seq<Prompt>, rows: seq<Row>, n: nat, was: Cache, now: Cache)
    requires n < |qs| && 2 * n + 2 <= |rows| && CacheIs(c, cache, qs, rows, n, was)
    requires now == if Wrote(c, qs, rows, c.keyOf(qs[n]), n) then was[c.keyOf(qs[n]) := rows[2 * n].text] else was
    ensures CacheIs(c, cache, qs, rows, n + 1, now)
  {
    forall key, text
      ensures Has(now, key, text) <==> Remembers(c, cache, qs, rows, n + 1, key, text)
    {
      assert Has(was, key, text) <==> Remembers(c, cache, qs, rows, n, key, text);
      RemembersStep(c, cache, qs, rows, n, key, text);
    }
  }

  /** Every run is explained pair by pair, for any oracle, any gate and any cache. */
  lemma {:induction false} EveryPairIs(c: Config, cache: Cache, ps: seq<Prompt>) returns (n: nat)
    ensures RunIs(c, cache, ps, Process(c, Start(cache), ps), n)
  {
    if ps == [] {
      n := 0;
    } else {
      var before := ps[..|ps| - 1];
      var s := Process(c, Start(cache), before);
      n := EveryPairIs(c, cache, before);
      SplitLast(ps);
      if s.aborted {
        ShorterRunIs(c, cache, before, ps, s, n);
      } else {
        StepIs(c, cache, before, s, ps[|ps| - 1]);
        n := n + 1;
      }
    }
  }

  /** An aborted run is not changed by prompts that it never reaches. */
  lemma ShorterRunIs(c: Config, cache: Cache, ps: seq<Prompt>, qs: seq<Prompt>, s: State, n: nat)
    requires s.aborted && ps <= qs && RunIs(c, cache, ps, s, n)
    ensures RunIs(c, cache, qs, s, n)
  {
    forall k | 0 <= k < n
      ensures PairIs(c, cache, qs, s.rows, k)
    {
      PairOfPrefix(c, cache, ps, qs, s.rows, s.rows, k);
    }
    PrefixCacheIs(c, cache, ps, qs, s.rows, s.rows, n, s.cache);
  }

  // ----- The order of tasks and prompts -----

  /** The seeds of a task follow one another, task by task. */
  lemma {:induction false} PromptAt(tasks: seq<Task>, seeds: nat, i: nat, seed: nat)
    requires i < |tasks| && seed < seeds
    ensures i * seeds + seed < |Prompts(tasks, seeds)|
    ensures Prompts(tasks, seeds)[i * seeds + seed] == Prompt(tasks[i], seed)
  {
    var before := tasks[..|tasks| - 1];
    PromptCount(before, seeds);
    PromptCount(tasks, seeds);
    SeedAt(tasks[|tasks| - 1], seeds, seed);
    if i < |before| {
      PromptAt(before, seeds, i, seed);
    }
  }

  lemma {:induction false} SeedAt(t: Task, seeds: nat, seed: nat)
    requires seed < seeds
    ensures SeedsOf(t, seeds)[seed] == Prompt(t, seed)
  {
    if seed < seeds - 1 {
      SeedAt(t, seeds - 1, seed);
    }
  }

  /** A slice is a prefix: of at most `k` elements, or of all but the last `-k`. */
  lemma SliceTakes<T>(s: seq<T>, k: int)
    ensures Slice(s, k) <= s
    ensures |Slice(s, k)| == if k >= |s| then |s| else if k >= 0 then k else if |s| + k >= 0 then |s| + k else 0
  {
  }

  /** Where a domain first appears. */
  function FirstAt(corpus: seq<Task>, domain: string): nat
  {
    if corpus == [] || corpus[0].domain == domain then 0 else 1 + FirstAt(corpus[1..], domain)
  }

  lemma {:induction false} FirstAtStep(corpus: seq<Task>, t: Task, domain: string)
    ensures domain in DomainsOf(corpus) ==> FirstAt(corpus + [t], domain) == FirstAt(corpus, domain) < |corpus|
    ensures domain !in DomainsOf(corpus) ==> FirstAt(corpus + [t], domain) >= |corpus|
  {
    if corpus != [] {
      FirstAtStep(corpus[1..], t, domain);
      assert (corpus + [t])[1..] == corpus[1..] + [t];
      FirstDomain(corpus, domain);
    }
  }

  lemma {:induction false} FirstDomain(corpus: seq<Task>, domain: string)
    requires corpus != []
    ensures domain in DomainsOf(corpus) <==> domain == corpus[0].domain || domain in DomainsOf(corpus[1..])
  {
    if |corpus| > 1 {
      FirstDomain(corpus[..|corpus| - 1], domain);
      assert corpus[..|corpus| - 1][1..] == corpus[1..][..|corpus| - 2];
    }
  }

  ghost predicate InOrder(corpus: seq<Task>, domains: seq<string>)
  {
    forall i, k | 0 <= i < k < |domains| :: FirstAt(corpus, domains[i]) < FirstAt(corpus, domains[k])
  }

  lemma {:induction false} DomainsInOrder(corpus: seq<Task>)
    ensures InOrder(corpus, DomainsOf(corpus))
  {
    if corpus != [] {
      var before, last := corpus[..|corpus| - 1], corpus[|corpus| - 1];
      DomainsInOrder(before);
      SplitLast(corpus);
      forall d
        ensures d in DomainsOf(before) ==> FirstAt(corpus, d) == FirstAt(before, d) < |before|
        ensures d !in DomainsOf(before) ==> FirstAt(corpus, d) >= |before|
      {
        FirstAtStep(before, last, d);
      }
    }
  }

  ghost predicate TasksInOrder(corpus: seq<Task>, tasks: seq<Task>)
  {
    forall a, b | 0 <= a < b < |tasks| :: FirstAt(corpus, tasks[a].domain) <= FirstAt(corpus, tasks[b].domain)
  }

  lemma {:induction false} FirstOfEachInOrder(corpus: seq<Task>, domains: seq<string>, k: int)
    requires InOrder(corpus, domains)
    ensures TasksInOrder(corpus, FirstOfEach(corpus, domains, k))
    ensures forall a | 0 <= a < |FirstOfEach(corpus, domains, k)| ::
              FirstOfEach(corpus, domains, k)[a].domain in domains
  {
    if domains != [] {
      var before, last := domains[..|domains| - 1], domains[|domains| - 1];
      FirstOfEachInOrder(corpus, before, k);
      TasksOfHaveDomain(corpus, last);
      SliceTakes(TasksOf(corpus, last), k);
      GroupAfter(corpus, FirstOfEach(corpus, before, k), Slice(TasksOf(corpus, last), k), before, last);
    }
  }

  lemma GroupAfter(corpus: seq<Task>, tasks: seq<Task>, group: seq<Task>, before: seq<string>, last: string)
    requires TasksInOrder(corpus, tasks) && InOrder(corpus, before + [last])
    requires forall a | 0 <= a < |tasks| :: tasks[a].domain in before
    requires forall a | 0 <= a < |group| :: group[a].domain == last
    ensures TasksInOrder(corpus, tasks + group)
  {
    forall d | d in before
      ensures FirstAt(corpus, d) < FirstAt(corpus, last)
    {
      var i :| 0 <= i < |before| && before[i] == d;
      assert (before + [last])[i] == d && (before + [last])[|before|] == last;
    }
  }

  /** The selection goes domain by domain, in the order in which the domains first appear in the corpus. */
  lemma SelectionInOrder(corpus: seq<Task>, k: int)
    ensures TasksInOrder(corpus, Selected(corpus, k))
  {
    DomainsInOrder(corpus);
    FirstOfEachInOrder(corpus, DomainsOf(corpus), k);
  }

  // ----- The plan -----

  /** The prompts whose answers the run would find in the cache. */
  function Known(c: Config, cache: Cache, ps: seq<Prompt>): set<nat>
  {
    set i: nat | i < |ps| && c.caching && c.resume && c.keyOf(ps[i]) in cache
  }

  lemma {:induction false} CountIsKnown(c: Config, cache: Cache, ps: seq<Prompt>)
    ensures CountCached(c, cache, ps) == |Known(c, cache, ps)|
  {
    if ps == [] {
      assert Known(c, cache, ps) == {};
    } else {
      var before, last := ps[..|ps| - 1], ps[|ps| - 1];
      CountIsKnown(c, cache, before);
      SplitLast(ps);
      KnownStep(c, cache, before, last);
    }
  }

  lemma KnownStep(c: Config, cache: Cache, ps: seq<Prompt>, p: Prompt)
    ensures |ps| !in Known(c, cache, ps)
    ensures Known(c, cache, ps + [p]) == if c.caching && c.resume && c.keyOf(p) in cache
                                         then Known(c, cache, ps) + {|ps|} else Known(c, cache, ps)
  {
    assert forall i | 0 <= i < |ps| :: (ps + [p])[i] == ps[i];
  }

  /** The plan counts the prompts, two rows for each, those known, and the others as live calls. */
  lemma PlanCounts(c: Config, cache: Cache, tasks: seq<Task>, seeds: nat)
    ensures var plan, ps := PlanFor(c, cache, tasks, seeds), Prompts(tasks, seeds);
            && plan.tasks == |tasks| && plan.prompts == |ps| && plan.rows == 2 * |ps|
            && plan.cached == |Known(c, cache, ps)| && plan.liveCalls == |ps| - plan.cached
  {
    PromptCount(tasks, seeds);
    CountIsKnown(c, cache, Prompts(tasks, seeds));
  }
}
