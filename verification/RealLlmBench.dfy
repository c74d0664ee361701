/**
  The paid benchmark run: task selection, the plan that the guards look at, and the run itself.

  The model's answers are an oracle by invocation number, `None` being an exception.  The response cache
  is the map of its readable entries; digests of cache keys are an arbitrary function, collisions included.
 */
module RealLlmBench {
  import opened Text
  import opened CanonicalJson
  import opened Events
  import PolicyGate
  import GateProperties

  datatype Task = Task(id: string, domain: string, text: string, expected: string)

  datatype Prompt = Prompt(task: Task, seed: nat)

  datatype Mode = Naked | Wrapped

  datatype Row = Row(mode: Mode, prompt: Prompt, success: bool, gatePassed: bool, text: string, failed: bool,
                     cached: bool)

  // ----- Task selection -----

  /** `s[:k]` as Python slices it. */
  function Slice<T>(s: seq<T>, k: int): seq<T>
  {
    if k >= |s| then s else if k >= 0 then s[..k] else if |s| + k >= 0 then s[..|s| + k] else []
  }

  function TasksOf(corpus: seq<Task>, domain: string): seq<Task>
  {
    if corpus == [] then []
    else
      TasksOf(corpus[..|corpus| - 1], domain) +
      if corpus[|corpus| - 1].domain == domain then [corpus[|corpus| - 1]] else []
  }

  function DomainsOf(corpus: seq<Task>): seq<string>
  {
    if corpus == [] then []
    else
      var ds := DomainsOf(corpus[..|corpus| - 1]);
      if corpus[|corpus| - 1].domain in ds then ds else ds + [corpus[|corpus| - 1].domain]
  }

  /** The first `k` tasks of each of the listed domains. */
  function FirstOfEach(corpus: seq<Task>, domains: seq<string>, k: int): seq<Task>
  {
    if domains == [] then []
    else FirstOfEach(corpus, domains[..|domains| - 1], k) + Slice(TasksOf(corpus, domains[|domains| - 1]), k)
  }

  function Selected(corpus: seq<Task>, k: int): seq<Task>
  {
    FirstOfEach(corpus, DomainsOf(corpus), k)
  }

  ghost predicate Grouped(domains: seq<string>, groups: map<string, seq<Task>>, corpus: seq<Task>)
  {
    && domains == DomainsOf(corpus)
    && (forall d :: d in groups <==> d in domains)
    && (forall d | d in groups :: groups[d] == TasksOf(corpus, d))
    && (forall d | d !in groups :: TasksOf(corpus, d) == [])
  }

  /** `by_domain.setdefault(t.domain, []).append(t)`, task by task. */
  method GroupByDomain(corpus: seq<Task>) returns (domains: seq<string>, groups: map<string, seq<Task>>)
    ensures Grouped(domains, groups, corpus)
  {
    domains, groups := [], map[];
    for i := 0 to |corpus|
      invariant Grouped(domains, groups, corpus[..i])
    {
      assert corpus[..i + 1][..i] == corpus[..i];
      assert corpus[..i + 1] == corpus[..i] + [corpus[i]];
      domains, groups := AddTask(domains, groups, corpus[i], corpus[..i]);
    }
    assert corpus[..|corpus|] == corpus;
  }

  method AddTask(domains: seq<string>, groups: map<string, seq<Task>>, t: Task, ghost corpus: seq<Task>)
    returns (domains': seq<string>, groups': map<string, seq<Task>>)
    requires Grouped(domains, groups, corpus)
    ensures Grouped(domains', groups', corpus + [t])
  {
    OneMoreTask(corpus, t);
    domains', groups' := domains, groups;
    if t.domain !in groups {
      domains' := domains + [t.domain];
      groups' := groups[t.domain := []];
    }
    groups' := groups'[t.domain := groups'[t.domain] + [t]];
  }

  lemma OneMoreTask(corpus: seq<Task>, t: Task)
    ensures DomainsOf(corpus + [t]) == if t.domain in DomainsOf(corpus) then DomainsOf(corpus)
            else DomainsOf(corpus) + [t.domain]
    ensures forall d :: TasksOf(corpus + [t], d) == TasksOf(corpus, d) + if t.domain == d then [t] else []
  {
    assert (corpus + [t])[..|corpus|] == corpus;
  }

  method SelectTasks(corpus: seq<Task>, k: int) returns (tasks: seq<Task>)
    ensures tasks == Selected(corpus, k)
  {
    var domains, groups := GroupByDomain(corpus);
    tasks := [];
    for i := 0 to |domains|
      invariant tasks == FirstOfEach(corpus, domains[..i], k)
    {
      assert domains[..i + 1][..i] == domains[..i];
      tasks := tasks + Slice(groups[domains[i]], k);
    }
    assert domains[..|domains|] == domains;
  }

  lemma {:induction false} TasksOfConcat(a: seq<Task>, b: seq<Task>, d: string)
    ensures TasksOf(a + b, d) == TasksOf(a, d) + TasksOf(b, d)
  {
    if b == [] {
      assert a + b == a;
    } else {
      assert (a + b)[..|a + b| - 1] == a + b[..|b| - 1];
      TasksOfConcat(a, b[..|b| - 1], d);
    }
  }

  lemma {:induction false} TasksOfOneDomain(s: seq<Task>, d: string, e: string)
    requires forall i | 0 <= i < |s| :: s[i].domain == d
    ensures TasksOf(s, e) == if e == d then s else []
  {
    if s != [] {
      TasksOfOneDomain(s[..|s| - 1], d, e);
    }
  }

  lemma {:induction false} TasksOfHaveDomain(corpus: seq<Task>, d: string)
    ensures forall i | 0 <= i < |TasksOf(corpus, d)| :: TasksOf(corpus, d)[i].domain == d
    ensures TasksOf(corpus, d) != [] <==> d in DomainsOf(corpus)
  {
    if corpus != [] {
      TasksOfHaveDomain(corpus[..|corpus| - 1], d);
    }
  }

  lemma {:induction false} DomainsAreDistinct(corpus: seq<Task>)
    ensures forall i, k | 0 <= i < k < |DomainsOf(corpus)| :: DomainsOf(corpus)[i] != DomainsOf(corpus)[k]
  {
    if corpus != [] {
      DomainsAreDistinct(corpus[..|corpus| - 1]);
    }
  }

  lemma TasksOfSlice(corpus: seq<Task>, last: string, k: int, d: string)
    ensures TasksOf(Slice(TasksOf(corpus, last), k), d) == if d == last then Slice(TasksOf(corpus, last), k) else []
  {
    TasksOfHaveDomain(corpus, last);
    var ts := TasksOf(corpus, last);
    assert forall i | 0 <= i < |Slice(ts, k)| :: Slice(ts, k)[i] == ts[i];
    TasksOfOneDomain(Slice(ts, k), last, d);
  }

  lemma {:induction false} FirstOfEachDomain(corpus: seq<Task>, domains: seq<string>, k: int, d: string)
    requires forall i, j | 0 <= i < j < |domains| :: domains[i] != domains[j]
    ensures TasksOf(FirstOfEach(corpus, domains, k), d) == if d in domains then Slice(TasksOf(corpus, d), k) else []
  {
    if domains != [] {
      var before, last := domains[..|domains| - 1], domains[|domains| - 1];
      FirstOfEachDomain(corpus, before, k, d);
      TasksOfConcat(FirstOfEach(corpus, before, k), Slice(TasksOf(corpus, last), k), d);
      TasksOfSlice(corpus, last, k, d);
      assert d in domains <==> d in before || d == last;
      assert last !in before;
    }
  }

  /** The selection is stratified: of every domain it takes exactly the leading slice, in order. */
  lemma SelectionIsStratified(corpus: seq<Task>, k: int, d: string)
    ensures TasksOf(Selected(corpus, k), d) == Slice(TasksOf(corpus, d), k)
  {
    DomainsAreDistinct(corpus);
    FirstOfEachDomain(corpus, DomainsOf(corpus), k, d);
    if d !in DomainsOf(corpus) {
      NoTasksNoSlice(corpus, k, d);
    }
  }

  lemma NoTasksNoSlice(corpus: seq<Task>, k: int, d: string)
    requires d !in DomainsOf(corpus)
    ensures Slice(TasksOf(corpus, d), k) == []
  {
    TasksOfHaveDomain(corpus, d);
  }

  // ----- The run as a fold over prompts -----

  function SeedsOf(t: Task, n: nat): (ps: seq<Prompt>)
    ensures |ps| == n
  {
    if n == 0 then [] else SeedsOf(t, n - 1) + [Prompt(t, n - 1)]
  }

  function Seeds(seeds: int): nat
  {
    if seeds < 0 then 0 else seeds
  }

  function Prompts(tasks: seq<Task>, seeds: int): seq<Prompt>
  {
    if tasks == [] then [] else Prompts(tasks[..|tasks| - 1], seeds) + SeedsOf(tasks[|tasks| - 1], Seeds(seeds))
  }

  type Cache = map<string, string>

  datatype Config = Config(
    keyOf: Prompt -> string,
    answer: nat -> Option<string>,
    passes: string -> bool,
    caching: bool,
    resume: bool,
    failFast: bool)
  {
    predicate Reads()
    {
      caching && resume
    }
  }

  /** The cache, the number of paid calls so far, the rows, and whether the run was aborted. */
  datatype State = State(cache: Cache, calls: nat, rows: seq<Row>, aborted: bool)

  predicate Contains(text: string, part: string)
  {
    exists i :: 0 <= i <= |text| && part <= text[i..]
  }

  function GoodPair(c: Config, p: Prompt, text: string, cached: bool): seq<Row>
  {
    var ok := Contains(text, p.task.expected);
    [Row(Naked, p, ok, false, text, false, cached),
     Row(Wrapped, p, ok && c.passes(text), c.passes(text), text, false, cached)]
  }

  function ErrorPair(p: Prompt): seq<Row>
  {
    [Row(Naked, p, false, false, "", true, false), Row(Wrapped, p, false, false, "", true, false)]
  }

  function Step(c: Config, s: State, p: Prompt): State
  {
    if s.aborted then s
    else if c.Reads() && c.keyOf(p) in s.cache then s.(rows := s.rows + GoodPair(c, p, s.cache[c.keyOf(p)], true))
    else
      match c.answer(s.calls)
      case None => State(s.cache, s.calls + 1, s.rows + ErrorPair(p), c.failFast)
      case Some(text) =>
        State(if c.caching then s.cache[c.keyOf(p) := text] else s.cache, s.calls + 1,
              s.rows + GoodPair(c, p, text, false), false)
  }

  function Process(c: Config, s: State, ps: seq<Prompt>): State
  {
    if ps == [] then s else Step(c, Process(c, s, ps[..|ps| - 1]), ps[|ps| - 1])
  }

  lemma {:induction false} ProcessConcat(c: Config, s: State, a: seq<Prompt>, b: seq<Prompt>)
    ensures Process(c, s, a + b) == Process(c, Process(c, s, a), b)
  {
    if b == [] {
      assert a + b == a;
    } else {
      assert (a + b)[..|a + b| - 1] == a + b[..|b| - 1];
      ProcessConcat(c, s, a, b[..|b| - 1]);
    }
  }

  lemma {:induction false} AbortedStays(c: Config, s: State, ps: seq<Prompt>)
    requires s.aborted
    ensures Process(c, s, ps) == s
  {
    if ps != [] {
      AbortedStays(c, s, ps[..|ps| - 1]);
    }
  }

  // ----- The plan -----

  datatype Plan = Plan(tasks: nat, prompts: int, rows: int, cached: nat, liveCalls: int)

  function CountCached(c: Config, cache: Cache, ps: seq<Prompt>): (n: nat)
    ensures n <= |ps|
  {
    if ps == [] then 0
    else CountCached(c, cache, ps[..|ps| - 1]) + if c.Reads() && c.keyOf(ps[|ps| - 1]) in cache then 1 else 0
  }

  function PlanFor(c: Config, cache: Cache, tasks: seq<Task>, seeds: int): Plan
  {
    var cached := CountCached(c, cache, Prompts(tasks, seeds));
    Plan(|tasks|, |tasks| * seeds, 2 * (|tasks| * seeds), cached, |tasks| * seeds - cached)
  }

  lemma {:induction false} PromptCount(tasks: seq<Task>, seeds: int)
    ensures |Prompts(tasks, seeds)| == |tasks| * Seeds(seeds)
  {
    if tasks != [] {
      PromptCount(tasks[..|tasks| - 1], seeds);
      OneMoreRow(|tasks| - 1, Seeds(seeds));
    }
  }

  lemma OneMoreRow(a: nat, n: nat)
    ensures (a + 1) * n == a * n + n
  {
  }

  lemma {:induction false} CountCachedConcat(c: Config, cache: Cache, a: seq<Prompt>, b: seq<Prompt>)
    ensures CountCached(c, cache, a + b) == CountCached(c, cache, a) + CountCached(c, cache, b)
  {
    if b == [] {
      assert a + b == a;
    } else {
      assert (a + b)[..|a + b| - 1] == a + b[..|b| - 1];
      CountCachedConcat(c, cache, a, b[..|b| - 1]);
    }
  }

  // ----- What every run satisfies -----

  function Start(cache: Cache): State
  {
    State(cache, 0, [], false)
  }

  /** The cache only gains entries, and no prompt cached at planning time is ever paid for. */
  lemma {:induction false} CallsWithinUncached(c: Config, cache: Cache, ps: seq<Prompt>)
    ensures cache.Keys <= Process(c, Start(cache), ps).cache.Keys
    ensures Process(c, Start(cache), ps).calls <= |ps| - CountCached(c, cache, ps)
  {
    if ps != [] {
      CallsWithinUncached(c, cache, ps[..|ps| - 1]);
    }
  }

  /** Paid calls never exceed the plan, for any answers, any cache and any key collisions. */
  lemma PlanBoundsPaidCalls(c: Config, cache: Cache, tasks: seq<Task>, seeds: int)
    ensures var paid := Process(c, Start(cache), Prompts(tasks, seeds)).calls;
            if seeds >= 0 then paid <= PlanFor(c, cache, tasks, seeds).liveCalls else paid == 0
  {
    PromptCount(tasks, seeds);
    CallsWithinUncached(c, cache, Prompts(tasks, seeds));
    if seeds < 0 {
      assert |Prompts(tasks, seeds)| == 0;
    }
  }

  /** The pair of rows at `i` belongs to the prompt at `i`. */
  predicate PairFor(rows: seq<Row>, i: nat, p: Prompt)
    requires 2 * i + 1 < |rows|
  {
    var naked, wrapped := rows[2 * i], rows[2 * i + 1];
    && naked.mode == Naked && wrapped.mode == Wrapped && naked.prompt == wrapped.prompt == p
    && naked.text == wrapped.text && naked.failed == wrapped.failed && naked.cached == wrapped.cached
    && !naked.gatePassed && (wrapped.success ==> naked.success && wrapped.gatePassed)
    && (naked.failed ==> !naked.success && !wrapped.success && !wrapped.gatePassed)
  }

  ghost predicate RowShape(rows: seq<Row>, ps: seq<Prompt>, n: nat, failFast: bool, aborted: bool)
  {
    && |rows| == 2 * n && n <= |ps| && (!aborted ==> n == |ps|)
    && (forall i | 0 <= i < n :: PairFor(rows, i, ps[i]))
    && (failFast ==> forall i | 0 <= i < n && rows[2 * i].failed :: aborted && i == n - 1)
    && (aborted ==> failFast && n > 0 && rows[2 * (n - 1)].failed)
  }

  /**
    Rows come in pairs, one naked and one wrapped, in prompt order; the run stops early only with
    fail-fast, after an error, and then there is a single error pair and it is the last.
   */
  lemma {:induction false} RowsComeInPairs(c: Config, cache: Cache, ps: seq<Prompt>) returns (n: nat)
    ensures var s := Process(c, Start(cache), ps); RowShape(s.rows, ps, n, c.failFast, s.aborted)
  {
    if ps == [] {
      n := 0;
    } else {
      var before := ps[..|ps| - 1];
      n := RowsComeInPairs(c, cache, before);
      var s, t := Process(c, Start(cache), before), Process(c, Start(cache), ps);
      assert forall i | 0 <= i < |before| :: before[i] == ps[i];
      if !s.aborted {
        StepAddsPair(c, s, ps[|ps| - 1], n);
        OneMorePair(s.rows, t.rows, ps, n, c.failFast, t.aborted);
        n := n + 1;
      }
    }
  }

  lemma StepAddsPair(c: Config, s: State, p: Prompt, n: nat)
    requires !s.aborted && |s.rows| == 2 * n
    ensures var t := Step(c, s, p);
            && |t.rows| == 2 * n + 2 && t.rows[..2 * n] == s.rows && PairFor(t.rows, n, p)
            && (t.aborted <==> c.failFast && t.rows[2 * n].failed)
  {
  }

  lemma OneMorePair(rows: seq<Row>, more: seq<Row>, ps: seq<Prompt>, n: nat, failFast: bool, aborted: bool)
    requires n + 1 == |ps| && RowShape(rows, ps[..n], n, failFast, false)
    requires |more| == 2 * n + 2 && more[..2 * n] == rows && PairFor(more, n, ps[n])
    requires aborted <==> failFast && more[2 * n].failed
    ensures RowShape(more, ps, n + 1, failFast, aborted)
  {
    assert forall i | 0 <= i < 2 * n :: more[i] == rows[i];
    forall i | 0 <= i < n
      ensures PairFor(more, i, ps[i]) && (failFast ==> !more[2 * i].failed)
    {
      assert PairFor(rows, i, ps[..n][i]);
    }
  }

  // ----- Resuming -----

  predicate NoErrors(rows: seq<Row>)
  {
    forall i | 0 <= i < |rows| :: !rows[i].failed
  }

  /** The text that the run has for the prompt at `i`. */
  function TextAt(rows: seq<Row>, i: nat): string
    requires 2 * i < |rows|
  {
    rows[2 * i].text
  }

  /** Prompts with the same cache key got the same text. */
  ghost predicate Consistent(c: Config, rows: seq<Row>, ps: seq<Prompt>)
    requires |rows| == 2 * |ps|
  {
    forall i, k | 0 <= i < k < |ps| && c.keyOf(ps[i]) == c.keyOf(ps[k]) :: TextAt(rows, i) == TextAt(rows, k)
  }

  /** The cache has an entry for every prompt. */
  ghost predicate AllCached(c: Config, cache: Cache, ps: seq<Prompt>)
  {
    forall i | 0 <= i < |ps| :: c.keyOf(ps[i]) in cache
  }

  /** The cache has the text that the run has, for every prompt. */
  ghost predicate CacheAgrees(c: Config, cache: Cache, rows: seq<Row>, ps: seq<Prompt>)
    requires |rows| == 2 * |ps|
  {
    AllCached(c, cache, ps) && forall i | 0 <= i < |ps| :: cache[c.keyOf(ps[i])] == TextAt(rows, i)
  }

  /** What one prompt does to a run that has had no error so far, and has none now. */
  lemma CleanStep(c: Config, s: State, p: Prompt)
    requires c.caching && !s.aborted && NoErrors(Step(c, s, p).rows)
    ensures var t := Step(c, s, p);
            && !t.aborted && |t.rows| == |s.rows| + 2 && t.rows[..|s.rows|] == s.rows
            && c.keyOf(p) in t.cache && t.cache[c.keyOf(p)] == t.rows[|s.rows|].text
            && (t.cache == s.cache || (t.cache == s.cache[c.keyOf(p) := t.rows[|s.rows|].text]
                                       && (c.resume ==> c.keyOf(p) !in s.cache)))
  {
    var t := Step(c, s, p);
    assert t.rows[..|s.rows|] == s.rows;
    if c.Reads() && c.keyOf(p) in s.cache {
      assert t.rows[|s.rows|] == GoodPair(c, p, s.cache[c.keyOf(p)], true)[0];
    } else {
      FreshStep(c, s, p);
    }
  }

  lemma FreshStep(c: Config, s: State, p: Prompt)
    requires c.caching && !s.aborted && !(c.Reads() && c.keyOf(p) in s.cache) && NoErrors(Step(c, s, p).rows)
    ensures c.answer(s.calls).Some?
    ensures Step(c, s, p).rows[|s.rows|].text == c.answer(s.calls).value
  {
    var t := Step(c, s, p);
    if c.answer(s.calls).None? {
      ErrorShows(c, s, p);
    } else {
      assert t.rows[|s.rows|] == GoodPair(c, p, c.answer(s.calls).value, false)[0];
    }
  }

  lemma ErrorShows(c: Config, s: State, p: Prompt)
    requires !s.aborted && !(c.Reads() && c.keyOf(p) in s.cache) && c.answer(s.calls).None?
    ensures !NoErrors(Step(c, s, p).rows)
  {
    assert Step(c, s, p).rows[|s.rows|] == ErrorPair(p)[0];
  }

  lemma StepKeepsRows(c: Config, s: State, p: Prompt)
    ensures s.rows <= Step(c, s, p).rows
  {
  }

  /** A run with caching and without errors leaves an entry for every prompt. */
  lemma {:induction false} CleanRunCaches(c: Config, cache: Cache, ps: seq<Prompt>)
    requires c.caching && NoErrors(Process(c, Start(cache), ps).rows)
    ensures var s := Process(c, Start(cache), ps);
            !s.aborted && |s.rows| == 2 * |ps| && AllCached(c, s.cache, ps)
  {
    if ps != [] {
      var before, p := ps[..|ps| - 1], ps[|ps| - 1];
      var s := Process(c, Start(cache), before);
      StepKeepsRows(c, s, p);
      assert forall i | 0 <= i < |s.rows| :: s.rows[i] == Step(c, s, p).rows[i];
      CleanRunCaches(c, cache, before);
      CleanStep(c, s, p);
      assert forall i | 0 <= i < |before| :: before[i] == ps[i];
    }
  }

  /** Every entry is the text of its prompt exactly when prompts that share a key got the same text. */
  lemma {:induction false} CacheAgreesIff(c: Config, cache: Cache, ps: seq<Prompt>)
    requires c.caching && NoErrors(Process(c, Start(cache), ps).rows)
    ensures var s := Process(c, Start(cache), ps);
            |s.rows| == 2 * |ps| && (CacheAgrees(c, s.cache, s.rows, ps) <==> Consistent(c, s.rows, ps))
  {
    var s := Process(c, Start(cache), ps);
    CleanRunCaches(c, cache, ps);
    if Consistent(c, s.rows, ps) {
      ConsistentAgrees(c, cache, ps);
    }
  }

  lemma {:induction false} ConsistentAgrees(c: Config, cache: Cache, ps: seq<Prompt>)
    requires c.caching && NoErrors(Process(c, Start(cache), ps).rows)
    requires |Process(c, Start(cache), ps).rows| == 2 * |ps| && Consistent(c, Process(c, Start(cache), ps).rows, ps)
    ensures var s := Process(c, Start(cache), ps); CacheAgrees(c, s.cache, s.rows, ps)
  {
    if ps != [] {
      var before, p := ps[..|ps| - 1], ps[|ps| - 1];
      var s := Process(c, Start(cache), before);
      StepKeepsRows(c, s, p);
      assert forall i | 0 <= i < |s.rows| :: s.rows[i] == Step(c, s, p).rows[i];
      CleanRunCaches(c, cache, before);
      PrefixConsistent(c, s.rows, Step(c, s, p).rows, before, ps);
      ConsistentAgrees(c, cache, before);
      CleanStep(c, s, p);
      AgreesOneMore(c, s, Step(c, s, p), before, p);
      assert ps == before + [p];
    }
  }

  lemma PrefixConsistent(c: Config, rows: seq<Row>, more: seq<Row>, before: seq<Prompt>, ps: seq<Prompt>)
    requires |rows| == 2 * |before| && |more| == 2 * |ps| && before <= ps && rows <= more && Consistent(c, more, ps)
    ensures Consistent(c, rows, before)
  {
    forall i, k | 0 <= i < k < |before| && c.keyOf(before[i]) == c.keyOf(before[k])
      ensures TextAt(rows, i) == TextAt(rows, k)
    {
      assert TextAt(more, i) == TextAt(more, k);
    }
  }

  lemma AgreesOneMore(c: Config, s: State, t: State, before: seq<Prompt>, p: Prompt)
    requires |s.rows| == 2 * |before| && CacheAgrees(c, s.cache, s.rows, before)
    requires |t.rows| == |s.rows| + 2 && t.rows[..|s.rows|] == s.rows && Consistent(c, t.rows, before + [p])
    requires c.keyOf(p) in t.cache && t.cache[c.keyOf(p)] == t.rows[|s.rows|].text
    requires t.cache == s.cache || t.cache == s.cache[c.keyOf(p) := t.rows[|s.rows|].text]
    ensures CacheAgrees(c, t.cache, t.rows, before + [p])
  {
    var ps := before + [p];
    forall i | 0 <= i < |ps|
      ensures c.keyOf(ps[i]) in t.cache && t.cache[c.keyOf(ps[i])] == TextAt(t.rows, i)
    {
      if i < |before| {
        assert ps[i] == before[i] && t.rows[2 * i] == s.rows[2 * i];
        if c.keyOf(ps[i]) == c.keyOf(p) {
          assert TextAt(t.rows, i) == TextAt(t.rows, |before|);
        }
      }
    }
  }

  /** Prompts with different keys, or a first run that resumed itself, are consistent. */
  lemma {:induction false} ResumedIsConsistent(c: Config, cache: Cache, ps: seq<Prompt>)
    requires c.caching && NoErrors(Process(c, Start(cache), ps).rows)
    requires c.resume || forall i, k | 0 <= i < k < |ps| :: c.keyOf(ps[i]) != c.keyOf(ps[k])
    ensures var s := Process(c, Start(cache), ps); |s.rows| == 2 * |ps| && Consistent(c, s.rows, ps)
  {
    CleanRunCaches(c, cache, ps);
    if c.resume {
      ResumedAgrees(c, cache, ps);
    }
  }

  lemma {:induction false} ResumedAgrees(c: Config, cache: Cache, ps: seq<Prompt>)
    requires c.caching && c.resume && NoErrors(Process(c, Start(cache), ps).rows)
    ensures var s := Process(c, Start(cache), ps); |s.rows| == 2 * |ps| && CacheAgrees(c, s.cache, s.rows, ps)
  {
    if ps != [] {
      var before, p := ps[..|ps| - 1], ps[|ps| - 1];
      var s := Process(c, Start(cache), before);
      StepKeepsRows(c, s, p);
      assert forall i | 0 <= i < |s.rows| :: s.rows[i] == Step(c, s, p).rows[i];
      CleanRunCaches(c, cache, before);
      ResumedAgrees(c, cache, before);
      CleanStep(c, s, p);
      var t := Step(c, s, p);
      forall i | 0 <= i < |ps|
        ensures c.keyOf(ps[i]) in t.cache && t.cache[c.keyOf(ps[i])] == TextAt(t.rows, i)
      {
        if i < |before| {
          assert ps[i] == before[i] && t.rows[2 * i] == s.rows[2 * i];
        }
      }
    }
  }

  /** The rows that a run gives which reads every text from the cache. */
  function Reread(c: Config, cache: Cache, ps: seq<Prompt>): seq<Row>
    requires AllCached(c, cache, ps)
  {
    if ps == [] then []
    else
      var p := ps[|ps| - 1];
      assert AllCached(c, cache, ps[..|ps| - 1]) by {
        assert forall i | 0 <= i < |ps| - 1 :: ps[..|ps| - 1][i] == ps[i];
      }
      assert c.keyOf(ps[|ps| - 1]) in cache;
      Reread(c, cache, ps[..|ps| - 1]) + GoodPair(c, p, cache[c.keyOf(p)], true)
  }

  /** When every prompt is cached, a resumed run pays nothing, writes nothing and rereads every text. */
  lemma {:induction false} CachedRunIsFree(c: Config, cache: Cache, ps: seq<Prompt>)
    requires c.Reads() && AllCached(c, cache, ps)
    ensures Process(c, Start(cache), ps) == State(cache, 0, Reread(c, cache, ps), false)
    ensures CountCached(c, cache, ps) == |ps|
  {
    if ps != [] {
      assert AllCached(c, cache, ps[..|ps| - 1]) by {
        assert forall i | 0 <= i < |ps| - 1 :: ps[..|ps| - 1][i] == ps[i];
      }
      CachedRunIsFree(c, cache, ps[..|ps| - 1]);
      assert c.keyOf(ps[|ps| - 1]) in cache;
    }
  }

  lemma {:induction false} RereadTexts(c: Config, cache: Cache, ps: seq<Prompt>)
    requires AllCached(c, cache, ps)
    ensures var rows := Reread(c, cache, ps);
            |rows| == 2 * |ps| && forall i | 0 <= i < |ps| :: TextAt(rows, i) == cache[c.keyOf(ps[i])]
  {
    if ps != [] {
      var before := ps[..|ps| - 1];
      assert AllCached(c, cache, before) by {
        assert forall i | 0 <= i < |before| :: before[i] == ps[i];
      }
      RereadTexts(c, cache, before);
      var rows := Reread(c, cache, ps);
      assert forall i | 0 <= i < 2 * |before| :: rows[i] == Reread(c, cache, before)[i];
    }
  }

  /** The texts of two runs over the same prompts are the same, prompt by prompt. */
  ghost predicate SameTexts(rows: seq<Row>, other: seq<Row>, n: nat)
    requires |rows| == |other| == 2 * n
  {
    forall i | 0 <= i < n :: TextAt(rows, i) == TextAt(other, i)
  }

  /**
    After a run with caching and without errors, a second run that resumes plans no live call, pays for
    none, whatever the model would answer, and leaves the cache alone.  It gives the same texts exactly when
    prompts that share a cache key got the same text in the first run.
   */
  lemma ResumeIsFree(c: Config, d: Config, cache: Cache, tasks: seq<Task>, seeds: int)
    requires c.caching && d.Reads() && d.keyOf == c.keyOf && seeds >= 0
    requires NoErrors(Process(c, Start(cache), Prompts(tasks, seeds)).rows)
    ensures var ps := Prompts(tasks, seeds);
            var first := Process(c, Start(cache), ps);
            var second := Process(d, Start(first.cache), ps);
            && PlanFor(d, first.cache, tasks, seeds).liveCalls == 0
            && second.calls == 0 && second.cache == first.cache && !second.aborted
            && |first.rows| == |second.rows| == 2 * |ps|
            && (SameTexts(first.rows, second.rows, |ps|) <==> Consistent(c, first.rows, ps))
  {
    var ps := Prompts(tasks, seeds);
    var first := Process(c, Start(cache), ps);
    CleanRunCaches(c, cache, ps);
    assert AllCached(d, first.cache, ps);
    CachedRunIsFree(d, first.cache, ps);
    RereadTexts(d, first.cache, ps);
    PromptCount(tasks, seeds);
    CacheAgreesIff(c, cache, ps);
  }

  // ----- The gate behind the wrapped rows -----

  const TOOL := "response_text"

  function ResponseCall(tid: nat, callId: nat, text: string): Event
  {
    ToolCall(tid, 0, callId, TOOL, Obj([Member("text", Str(text))]), Unset)
  }

  function ResponsePolicy(rules: seq<PolicyGate.EgressRule>): PolicyGate.Policy
  {
    PolicyGate.Policy([TOOL], [], rules, 20)
  }

  /** What a fresh gate decides for one response. */
  ghost function FreshGatePasses(rules: seq<PolicyGate.EgressRule>, text: string): bool
  {
    PolicyGate.Scan(rules, Obj([Member("text", Str(text))])) == None
    || PolicyGate.Scan(rules, Obj([Member("text", Str(text))])).value.severity != PolicyGate.Deny
  }

  /** A gate reused for responses of fresh traces decides each like a fresh gate: by the text alone. */
  lemma ReusedGateDecidesByText(rules: seq<PolicyGate.EgressRule>, sha: string -> nat, h: seq<Event>, tid: nat,
                                callId: nat, text: string)
    requires PolicyGate.AllCalls(h) && forall i | 0 <= i < |h| :: h[i].traceId != tid
    ensures PolicyGate.DecisionAfter(ResponsePolicy(rules), sha, h, ResponseCall(tid, callId, text)).allow
            == FreshGatePasses(rules, text)
  {
    GateProperties.FreshTraceFreshGate(ResponsePolicy(rules), sha, h, ResponseCall(tid, callId, text));
  }

  // ----- The run -----

  datatype Outcome = OutputExists | TooManyPaidCalls | NoApiKey | Done(rows: seq<Row>)

  class Bench {
    const corpus: seq<Task>
    const keyOf: Prompt -> string
    const rules: seq<PolicyGate.EgressRule>
    const sha: string -> nat
    const traceIds: nat -> nat
    var cache: Cache

    constructor (corpus: seq<Task>, keyOf: Prompt -> string, rules: seq<PolicyGate.EgressRule>, sha: string -> nat,
                 traceIds: nat -> nat, cache: Cache)
      ensures this.corpus == corpus && this.keyOf == keyOf && this.rules == rules && this.sha == sha
      ensures this.traceIds == traceIds && this.cache == cache
    {
      this.corpus, this.keyOf, this.rules, this.sha := corpus, keyOf, rules, sha;
      this.traceIds, this.cache := traceIds, cache;
    }

    ghost function ConfigOf(answer: nat -> Option<string>, caching: bool, resume: bool, failFast: bool): Config
    {
      Config(keyOf, answer, text => FreshGatePasses(rules, text), caching, resume, failFast)
    }

    method MakePlan(tasks: seq<Task>, seeds: int, caching: bool, resume: bool, ghost c: Config) returns (plan: Plan)
      requires c.keyOf == keyOf && c.caching == caching && c.resume == resume
      ensures plan == PlanFor(c, cache, tasks, seeds)
    {
      var cached: nat := 0;
      if resume && caching {
        for i := 0 to |tasks|
          invariant cached == CountCached(c, cache, Prompts(tasks[..i], seeds))
        {
          assert tasks[..i + 1][..i] == tasks[..i];
          var n := CountTask(tasks[i], Seeds(seeds), c);
          CountCachedConcat(c, cache, Prompts(tasks[..i], seeds), SeedsOf(tasks[i], Seeds(seeds)));
          cached := cached + n;
        }
        assert tasks[..|tasks|] == tasks;
      } else {
        NothingCached(c, cache, Prompts(tasks, seeds));
      }
      return Plan(|tasks|, |tasks| * seeds, 2 * (|tasks| * seeds), cached, |tasks| * seeds - cached);
    }

    method CountTask(t: Task, seeds: nat, ghost c: Config) returns (cached: nat)
      requires c.keyOf == keyOf && c.Reads()
      ensures cached == CountCached(c, cache, SeedsOf(t, seeds))
    {
      cached := 0;
      for seed := 0 to seeds
        invariant cached == CountCached(c, cache, SeedsOf(t, seed))
      {
        assert SeedsOf(t, seed + 1)[..seed] == SeedsOf(t, seed);
        if keyOf(Prompt(t, seed)) in cache {
          cached := cached + 1;
        }
      }
    }

    /** Every response so far went through the gate under its own trace. */
    ghost predicate FreshTraces(gate: PolicyGate.Gate)
      reads gate
    {
      && gate.Valid() && gate.policy == ResponsePolicy(rules)
      && forall i | 0 <= i < |gate.history| :: gate.history[i].traceId == traceIds(i)
    }

    /** `_gate_response`, under the next trace identifier. */
    method GateResponse(text: string, gate: PolicyGate.Gate, used: nat) returns (passes: bool)
      requires forall i, k :: traceIds(i) == traceIds(k) ==> i == k
      requires FreshTraces(gate) && used == |gate.history|
      modifies gate
      ensures FreshTraces(gate) && |gate.history| == used + 1
      ensures passes == FreshGatePasses(rules, text)
    {
      ReusedGateDecidesByText(rules, gate.sha, gate.history, traceIds(used), used, text);
      var decision := gate.OnToolCall(ResponseCall(traceIds(used), used, text));
      passes := decision.allow;
    }

    /** One prompt: from the cache or by a paid call, then its two rows. */
    method RunPrompt(p: Prompt, answer: nat -> Option<string>, caching: bool, resume: bool, failFast: bool,
                     gate: PolicyGate.Gate, used: nat, calls: nat, rows: seq<Row>)
      returns (calls': nat, rows': seq<Row>, aborted: bool, used': nat)
      requires forall i, k :: traceIds(i) == traceIds(k) ==> i == k
      requires FreshTraces(gate) && used == |gate.history|
      modifies this, gate
      ensures FreshTraces(gate) && used' == |gate.history|
      ensures State(cache, calls', rows', aborted)
              == Step(ConfigOf(answer, caching, resume, failFast), State(old(cache), calls, rows, false), p)
    {
      calls', rows', aborted, used' := calls, rows, false, used;
      var key := keyOf(p);
      var text: string;
      var fromCache := resume && caching && key in cache;
      if fromCache {
        text := cache[key];
      } else {
        calls' := calls + 1;
        var response := answer(calls);
        if response.None? {
          rows' := rows + ErrorPair(p);
          aborted := failFast;
          return;
        }
        text := response.value;
        if caching {
          cache := cache[key := text];
        }
      }
      var ok := Contains(text, p.task.expected);
      var passes := GateResponse(text, gate, used);
      used' := used + 1;
      rows' := rows + [Row(Naked, p, ok, false, text, false, fromCache),
                       Row(Wrapped, p, ok && passes, passes, text, false, fromCache)];
    }

    /** The prompts of one task, until an error aborts the run. */
    method RunTask(t: Task, seeds: nat, answer: nat -> Option<string>, caching: bool, resume: bool, failFast: bool,
                   gate: PolicyGate.Gate, used: nat, calls: nat, rows: seq<Row>)
      returns (calls': nat, rows': seq<Row>, aborted: bool, used': nat)
      requires forall i, k :: traceIds(i) == traceIds(k) ==> i == k
      requires FreshTraces(gate) && used == |gate.history|
      modifies this, gate
      ensures FreshTraces(gate) && used' == |gate.history|
      ensures State(cache, calls', rows', aborted)
              == Process(ConfigOf(answer, caching, resume, failFast), State(old(cache), calls, rows, false),
                  SeedsOf(t, seeds))
    {
      ghost var c, s0 := ConfigOf(answer, caching, resume, failFast), State(cache, calls, rows, false);
      calls', rows', aborted, used' := calls, rows, false, used;
      var seed: nat := 0;
      while seed < seeds && !aborted
        invariant seed <= seeds && FreshTraces(gate) && used' == |gate.history|
        invariant State(cache, calls', rows', aborted) == Process(c, s0, SeedsOf(t, seed))
      {
        assert SeedsOf(t, seed + 1)[..seed] == SeedsOf(t, seed);
        calls', rows', aborted, used' :=
          RunPrompt(Prompt(t, seed), answer, caching, resume, failFast, gate, used', calls', rows');
        seed := seed + 1;
      }
      RestIsSkipped(c, s0, t, seed, seeds);
    }

    /** The guards, all before the first paid call, and then the run. */
    method Run(k: int, seeds: int, answer: nat -> Option<string>, caching: bool, resume: bool, failFast: bool,
               outExists: bool, overwrite: bool, maxPaidCalls: Option<int>, hasKey: bool)
      returns (outcome: Outcome, calls: nat)
      requires forall i, k :: traceIds(i) == traceIds(k) ==> i == k
      modifies this
      ensures var c, tasks := ConfigOf(answer, caching, resume, failFast), Selected(corpus, k);
              var live := PlanFor(c, old(cache), tasks, seeds).liveCalls;
              if outExists && !overwrite then outcome == OutputExists && calls == 0 && cache == old(cache)
              else if maxPaidCalls.Some? && live > maxPaidCalls.value then
                outcome == TooManyPaidCalls && calls == 0 && cache == old(cache)
              else if live > 0 && !hasKey then outcome == NoApiKey && calls == 0 && cache == old(cache)
              else
                var s := Process(c, Start(old(cache)), Prompts(tasks, seeds));
                outcome == Done(s.rows) && calls == s.calls && cache == s.cache
      ensures maxPaidCalls.Some? && seeds >= 0 && outcome.Done? ==> calls <= maxPaidCalls.value
    {
      ghost var c := ConfigOf(answer, caching, resume, failFast);
      var tasks := SelectTasks(corpus, k);
      var plan := MakePlan(tasks, seeds, caching, resume, c);
      if outExists && !overwrite {
        return OutputExists, 0;
      }
      if maxPaidCalls.Some? && plan.liveCalls > maxPaidCalls.value {
        return TooManyPaidCalls, 0;
      }
      if plan.liveCalls > 0 && !hasKey {
        return NoApiKey, 0;
      }
      PlanBoundsPaidCalls(c, cache, tasks, seeds);
      var rows: seq<Row>;
      calls, rows := RunAll(tasks, seeds, answer, caching, resume, failFast);
      return Done(rows), calls;
    }

    /** The outer loop, with one gate for all responses. */
    method RunAll(tasks: seq<Task>, seeds: int, answer: nat -> Option<string>, caching: bool, resume: bool,
                  failFast: bool)
      returns (calls: nat, rows: seq<Row>)
      requires forall i, k :: traceIds(i) == traceIds(k) ==> i == k
      modifies this
      ensures var s := Process(ConfigOf(answer, caching, resume, failFast), Start(old(cache)), Prompts(tasks, seeds));
              rows == s.rows && calls == s.calls && cache == s.cache
    {
      ghost var c, s0 := ConfigOf(answer, caching, resume, failFast), Start(cache);
      var gate := new PolicyGate.Gate(ResponsePolicy(rules), sha);
      calls, rows := 0, [];
      var aborted, used := false, 0;
      var i := 0;
      while i < |tasks| && !aborted
        invariant 0 <= i <= |tasks| && FreshTraces(gate) && used == |gate.history| && fresh(gate)
        invariant State(cache, calls, rows, aborted) == Process(c, s0, Prompts(tasks[..i], seeds))
      {
        assert tasks[..i + 1][..i] == tasks[..i];
        ProcessConcat(c, s0, Prompts(tasks[..i], seeds), SeedsOf(tasks[i], Seeds(seeds)));
        calls, rows, aborted, used :=
          RunTask(tasks[i], Seeds(seeds), answer, caching, resume, failFast, gate, used, calls, rows);
        i := i + 1;
      }
      TasksAreSkipped(c, s0, tasks, seeds, i);
    }
  }

  lemma {:induction false} RestIsSkipped(c: Config, s: State, t: Task, seed: nat, seeds: nat)
    requires seed <= seeds
    requires seed < seeds ==> Process(c, s, SeedsOf(t, seed)).aborted
    ensures Process(c, s, SeedsOf(t, seeds)) == Process(c, s, SeedsOf(t, seed))
  {
    if seed < seeds {
      RestIsSkipped(c, s, t, seed, seeds - 1);
      assert SeedsOf(t, seeds)[..seeds - 1] == SeedsOf(t, seeds - 1);
    }
  }

  lemma {:induction false} TasksAreSkipped(c: Config, s: State, tasks: seq<Task>, seeds: int, i: nat)
    requires i <= |tasks|
    requires i < |tasks| ==> Process(c, s, Prompts(tasks[..i], seeds)).aborted
    ensures Process(c, s, Prompts(tasks, seeds)) == Process(c, s, Prompts(tasks[..i], seeds))
  {
    if i == |tasks| {
      assert tasks[..i] == tasks;
    } else {
      var before := tasks[..|tasks| - 1];
      assert before[..i] == tasks[..i];
      if i == |before| {
        assert before[..i] == before;
      }
      TasksAreSkipped(c, s, before, seeds, i);
      ProcessConcat(c, s, Prompts(before, seeds), SeedsOf(tasks[|tasks| - 1], Seeds(seeds)));
      AbortedStays(c, Process(c, s, Prompts(before, seeds)), SeedsOf(tasks[|tasks| - 1], Seeds(seeds)));
    }
  }

  lemma {:induction false} NothingCached(c: Config, cache: Cache, ps: seq<Prompt>)
    requires !c.Reads()
    ensures CountCached(c, cache, ps) == 0
  {
    if ps != [] {
      NothingCached(c, cache, ps[..|ps| - 1]);
    }
  }
}
