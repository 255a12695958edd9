/** The crawl task and the quick summary: checks run concurrently and finish in any order, and what is
    stored and counted does not depend on that order. */
module LinkRollup {
  import opened Prelude
  import opened LinkChecker

  datatype Status = Pending | Crawling | CheckingLinks | Completed | Failed

  datatype Job = Job(
    status: Status, found: int, checked: int,
    healthy: int, broken: int, redirects: int, timeouts: int)

  const NEW_JOB := Job(Pending, 0, 0, 0, 0, 0, 0)

  datatype Row = Row(link: Link, status: Option<int>, category: Category, redirectUrl: string)

  const PROGRESS_EVERY := 50

  /** `s[:n]`: a negative bound counts from the end. */
  function Slice<T>(s: seq<T>, n: int): seq<T>
  {
    if n >= 0 then (if n < |s| then s[..n] else s) else if -n < |s| then s[..|s| + n] else []
  }

  /** The first `n` elements, or all; for a negative `n` all but the last `-n`. */
  lemma SliceIs<T>(s: seq<T>, n: int)
    ensures Slice(s, n) <= s
    ensures |Slice(s, n)| == if n >= |s| then |s| else if n >= 0 then n else if |s| + n > 0 then |s| + n else 0
  {
  }

  // -------------------------------------------------------------------------- completion orders

  function Range(n: nat): seq<nat> { seq(n, i => i) }

  /** The order in which `n` checks finish. */
  ghost predicate IsOrder(order: seq<nat>, n: nat)
  {
    multiset(order) == multiset(Range(n))
  }

  lemma OrderFacts(order: seq<nat>, n: nat)
    requires IsOrder(order, n)
    ensures |order| == n
    ensures forall k :: 0 <= k < |order| ==> order[k] < n
    ensures Distinct(order)
  {
    assert |multiset(order)| == |order| && |multiset(Range(n))| == |Range(n)|;
    forall k | 0 <= k < |order| ensures order[k] < n {
      assert order[k] in multiset(order);
      assert order[k] in Range(n);
    }
    forall i, j | 0 <= i < j < |order| ensures order[i] != order[j] {
      RangeHasOne(n, order[i]);
      if order[i] == order[j] {
        TwoOccurrences(order, i, j);
      }
    }
  }

  lemma {:induction false} RangeHasOne(n: nat, v: nat)
    ensures multiset(Range(n))[v] <= 1
    ensures v >= n ==> multiset(Range(n))[v] == 0
  {
    if n > 0 {
      assert Range(n) == Range(n - 1) + [n - 1];
      RangeHasOne(n - 1, v);
    }
  }

  lemma TwoOccurrences<T>(s: seq<T>, i: nat, j: nat)
    requires i < j < |s| && s[i] == s[j]
    ensures multiset(s)[s[i]] >= 2
  {
    assert s == s[..i] + [s[i]] + s[i + 1..j] + [s[j]] + s[j + 1..];
  }

  function Map<A, B>(f: A -> B, s: seq<A>): seq<B>
  {
    seq(|s|, k requires 0 <= k < |s| => f(s[k]))
  }

  /** Dropping one occurrence of the same element from both sides. */
  lemma DropOne<T>(a: seq<T>, b: seq<T>, j: nat)
    requires multiset(a) == multiset(b) && a != [] && j < |b| && b[j] == a[|a| - 1]
    ensures multiset(a[..|a| - 1]) == multiset(b[..j] + b[j + 1..])
  {
    var x, p, q := b[j], b[..j], b[j + 1..];
    assert a == a[..|a| - 1] + [x];
    assert b == p + [x] + q;
    assert multiset(a) == multiset(a[..|a| - 1]) + multiset{x};
    assert multiset(b) == multiset(p) + multiset{x} + multiset(q) == multiset(p + q) + multiset{x};
    Cancel(multiset(a[..|a| - 1]), multiset(p + q), x);
  }

  lemma Cancel<T>(a: multiset<T>, b: multiset<T>, x: T)
    requires a + multiset{x} == b + multiset{x}
    ensures a == b
  {
    assert a == (a + multiset{x}) - multiset{x};
    assert b == (b + multiset{x}) - multiset{x};
  }

  lemma MapAppend<A, B>(f: A -> B, a: seq<A>, b: seq<A>)
    ensures Map(f, a + b) == Map(f, a) + Map(f, b)
  {
  }

  /** Permuting the arguments permutes the results. */
  lemma {:induction false} MapPermutes<A, B>(f: A -> B, a: seq<A>, b: seq<A>)
    requires multiset(a) == multiset(b)
    ensures multiset(Map(f, a)) == multiset(Map(f, b))
  {
    if a == [] {
      assert |multiset(b)| == |b| == 0;
    } else {
      var n := |a| - 1;
      assert a == a[..n] + [a[n]];
      assert a[n] in multiset(b);
      var j :| 0 <= j < |b| && b[j] == a[n];
      var rest := b[..j] + b[j + 1..];
      DropOne(a, b, j);
      MapPermutes(f, a[..n], rest);
      assert b == b[..j] + ([b[j]] + b[j + 1..]);
      MapAppend(f, a[..n], [a[n]]);
      MapAppend(f, b[..j], b[j + 1..]);
      MapAppend(f, b[..j], [b[j]] + b[j + 1..]);
      MapAppend(f, [b[j]], b[j + 1..]);
      assert Map(f, [b[j]]) == [f(a[n])] == Map(f, [a[n]]);
    }
  }

  /** Counting ignores the order. */
  lemma {:induction false} CountPermutes<T>(a: seq<T>, b: seq<T>, p: T -> bool)
    requires multiset(a) == multiset(b)
    ensures Count(a, p) == Count(b, p)
  {
    if a == [] {
      assert |multiset(b)| == |b| == 0;
    } else {
      var n := |a| - 1;
      assert a == a[..n] + [a[n]];
      assert a[n] in multiset(b);
      var j :| 0 <= j < |b| && b[j] == a[n];
      assert b == b[..j] + [b[j]] + b[j + 1..];
      DropOne(a, b, j);
      CountPermutes(a[..n], b[..j] + b[j + 1..], p);
      CountAppend(b[..j], b[j + 1..], p);
      CountAppend(b[..j] + [b[j]], b[j + 1..], p);
      CountOne(b[..j], b[j], p);
    }
  }

  lemma CountOne<T>(s: seq<T>, x: T, p: T -> bool)
    ensures Count(s + [x], p) == Count(s, p) + if p(x) then 1 else 0
  {
    assert (s + [x])[..|s|] == s;
  }

  // ------------------------------------------------------------------------------------ the rows

  function RowOf(link: Link, o: Outcome): Row
  {
    match o
    case Checked(status, category, redirectUrl) => Row(link, status, category, redirectUrl)
    case Uncaught => Row(link, None, Failing, "")
  }

  /** One row per link, in page order. */
  function RowAt(links: seq<Link>, outcomes: seq<Outcome>): nat -> Row
  {
    (i: nat) => if i < |links| && i < |outcomes| then RowOf(links[i], outcomes[i]) else RowOf(Link("", "", "", false), Uncaught)
  }

  predicate InCategory(r: Row, c: Category) { r.category == c }

  function Tally(rows: seq<Row>, c: Category): nat
  {
    Count(rows, r => InCategory(r, c))
  }

  lemma {:induction false} FiveCategories(rows: seq<Row>)
    ensures Tally(rows, Healthy) + Tally(rows, Broken) + Tally(rows, Redirect) + Tally(rows, Timeout)
            + Tally(rows, Failing) == |rows|
  {
    if rows != [] {
      FiveCategories(rows[..|rows| - 1]);
    }
  }

  /** What a finished crawl stores for these links, whatever the completion order. */
  ghost predicate RolledUp(job: Job, rows: seq<Row>, links: seq<Link>, outcomes: seq<Outcome>)
    requires |outcomes| == |links|
  {
    && multiset(rows) == multiset(Map(RowAt(links, outcomes), Range(|links|)))
    && job.found == job.checked == |rows| == |links|
    && job.healthy == Tally(rows, Healthy) && job.broken == Tally(rows, Broken)
    && job.redirects == Tally(rows, Redirect) && job.timeouts == Tally(rows, Timeout)
    && job.healthy + job.broken + job.redirects + job.timeouts + Tally(rows, Failing) == job.checked
    && (DistinctTargets(links) ==> DistinctRows(rows))
  }

  /** No two rows are about the same destination. */
  ghost predicate DistinctRows(rows: seq<Row>)
  {
    forall i, j :: 0 <= i < j < |rows| ==> rows[i].link.target != rows[j].link.target
  }

  /** What the extraction gives has distinct destinations, and so has every slice of it. */
  lemma FirstLinksAreDistinct(u: Urls, cands: seq<Candidate>, links: seq<Link>, n: int)
    requires FirstLinks(u, cands, links)
    ensures DistinctTargets(links) && DistinctTargets(Slice(links, n))
  {
    var from :| Sources(Candidacies(u, cands), |cands|, links, from);
  }

  lemma RowsOfDistinctTargets(links: seq<Link>, outcomes: seq<Outcome>, order: seq<nat>)
    requires |outcomes| == |links| && IsOrder(order, |links|) && DistinctTargets(links)
    ensures DistinctRows(Map(RowAt(links, outcomes), order))
  {
    OrderFacts(order, |links|);
    var rows := Map(RowAt(links, outcomes), order);
    forall i, j | 0 <= i < j < |rows| ensures rows[i].link.target != rows[j].link.target {
      assert rows[i].link == links[order[i]] && rows[j].link == links[order[j]];
      assert order[i] != order[j];
    }
  }

  /** A row holds what its check reported: status, category and redirect address. */
  ghost predicate Records(r: Row, o: Outcome)
  {
    o == Checked(r.status, r.category, r.redirectUrl)
  }

  lemma RowsRecord(links: seq<Link>, outcomes: seq<Outcome>, order: seq<nat>)
    requires |outcomes| == |links| && IsOrder(order, |links|) && Uncaught !in outcomes
    ensures var rows := Map(RowAt(links, outcomes), order);
            && |rows| == |links| == |order|
            && forall k :: 0 <= k < |rows| ==>
                 order[k] < |links| && rows[k].link == links[order[k]] && Records(rows[k], outcomes[order[k]])
  {
    OrderFacts(order, |links|);
    forall k | 0 <= k < |order| ensures Records(RowAt(links, outcomes)(order[k]), outcomes[order[k]]) {
      assert outcomes[order[k]] in outcomes;
    }
  }

  predicate CameOut(o: Outcome, c: Category) { o.Checked? && o.category == c }

  /** How many of the checks came out in a category. */
  function CameOutIn(outcomes: seq<Outcome>, c: Category): nat
  {
    Count(outcomes, o => CameOut(o, c))
  }

  lemma {:induction false} PlainTally(links: seq<Link>, outcomes: seq<Outcome>, n: nat, c: Category)
    requires n <= |outcomes| == |links| && Uncaught !in outcomes
    ensures Tally(Map(RowAt(links, outcomes), Range(n)), c) == CameOutIn(outcomes[..n], c)
  {
    if n > 0 {
      var f := RowAt(links, outcomes);
      PlainTally(links, outcomes, n - 1, c);
      var last: seq<nat> := [n - 1];
      assert Range(n) == Range(n - 1) + last;
      MapAppend(f, Range(n - 1), last);
      assert Map(f, last) == [f(n - 1)];
      CountOne(Map(f, Range(n - 1)), f(n - 1), r => InCategory(r, c));
      assert outcomes[..n] == outcomes[..n - 1] + [outcomes[n - 1]];
      CountOne(outcomes[..n - 1], outcomes[n - 1], o => CameOut(o, c));
      assert outcomes[n - 1] in outcomes;
    }
  }

  /** The category counts are those of the checks themselves. */
  lemma TallyIsOfChecks(links: seq<Link>, outcomes: seq<Outcome>, rows: seq<Row>, c: Category)
    requires |outcomes| == |links| && Uncaught !in outcomes
    requires multiset(rows) == multiset(Map(RowAt(links, outcomes), Range(|links|)))
    ensures Tally(rows, c) == CameOutIn(outcomes, c)
  {
    CountPermutes(rows, Map(RowAt(links, outcomes), Range(|links|)), r => InCategory(r, c));
    PlainTally(links, outcomes, |outcomes|, c);
    assert outcomes[..|outcomes|] == outcomes;
  }

  ghost predicate CountsChecks(job: Job, outcomes: seq<Outcome>)
  {
    && job.healthy == CameOutIn(outcomes, Healthy) && job.broken == CameOutIn(outcomes, Broken)
    && job.redirects == CameOutIn(outcomes, Redirect) && job.timeouts == CameOutIn(outcomes, Timeout)
  }

  lemma RolledUpCounts(job: Job, rows: seq<Row>, links: seq<Link>, outcomes: seq<Outcome>)
    requires |outcomes| == |links| && RolledUp(job, rows, links, outcomes) && Uncaught !in outcomes
    ensures CountsChecks(job, outcomes)
  {
    TallyIsOfChecks(links, outcomes, rows, Healthy);
    TallyIsOfChecks(links, outcomes, rows, Broken);
    TallyIsOfChecks(links, outcomes, rows, Redirect);
    TallyIsOfChecks(links, outcomes, rows, Timeout);
  }

  /** The same for the quick check. */
  lemma BriefCounts(links: seq<Link>, outcomes: seq<Outcome>, order: seq<nat>, c: Category)
    requires |outcomes| == |links| && IsOrder(order, |links|) && Uncaught !in outcomes
    ensures Tally(Map(RowAt(links, outcomes), order), c) == CameOutIn(outcomes, c)
  {
    MapPermutes(RowAt(links, outcomes), order, Range(|links|));
    TallyIsOfChecks(links, outcomes, Map(RowAt(links, outcomes), order), c);
  }

  /** Every row records the check of one of the links, and every link has its row. */
  ghost predicate RecordsAll(rows: seq<Row>, links: seq<Link>, check: Link -> Outcome)
  {
    && (forall r :: r in rows ==> r.link in links && Records(r, check(r.link)))
    && (forall l :: l in links ==> HasRow(rows, l))
  }

  ghost predicate HasRow(rows: seq<Row>, l: Link)
  {
    exists r :: r in rows && r.link == l
  }

  lemma RolledUpRecords(job: Job, rows: seq<Row>, links: seq<Link>, check: Link -> Outcome)
    requires RolledUp(job, rows, links, Map(check, links)) && Uncaught !in Map(check, links)
    ensures RecordsAll(rows, links, check)
  {
    var outcomes := Map(check, links);
    var f, order := RowAt(links, outcomes), Range(|links|);
    var plain := Map(f, order);
    RowsRecord(links, outcomes, order);
    forall r | r in rows ensures r.link in links && Records(r, check(r.link)) {
      assert r in multiset(rows) && r in multiset(plain);
      var k :| 0 <= k < |plain| && plain[k] == r;
      assert order[k] == k && r.link == links[k] && outcomes[k] == check(links[k]);
    }
    forall l | l in links ensures HasRow(rows, l) {
      var k :| 0 <= k < |links| && links[k] == l;
      assert order[k] == k && plain[k].link == l && plain[k] in multiset(plain);
      assert plain[k] in multiset(rows);
      assert plain[k] in rows;
    }
  }

  /** Two completion orders give the same counts and the same rows up to order. */
  lemma OrderDoesNotMatter(links: seq<Link>, outcomes: seq<Outcome>, a: seq<nat>, b: seq<nat>, c: Category)
    requires |outcomes| == |links| && IsOrder(a, |links|) && IsOrder(b, |links|)
    ensures var f := RowAt(links, outcomes);
            multiset(Map(f, a)) == multiset(Map(f, b)) && Tally(Map(f, a), c) == Tally(Map(f, b), c)
  {
    var f := RowAt(links, outcomes);
    MapPermutes(f, a, b);
    CountPermutes(Map(f, a), Map(f, b), r => InCategory(r, c));
  }

  // ---------------------------------------------------------------------------- the crawl task

  /** The outcomes of the checks, the order in which they finish, and what the final writes do. */
  datatype Env = Env(outcomes: seq<Outcome>, order: seq<nat>, insertFails: bool, saveFails: bool)

  /** One delivery of the task. `page` holds the candidate elements of the fetched page, `None` when robots
      or fetching raised; `check` tells how each link turns out, `order(n)` how `n` checks finish. */
  datatype Delivery = Delivery(
    page: Option<seq<Candidate>>, urls: Urls, check: Link -> Outcome, order: nat -> seq<nat>,
    insertFails: bool, saveFails: bool)

  ghost predicate Orders(order: nat -> seq<nat>)
  {
    forall n :: IsOrder(order(n), n)
  }

  /** Fetching succeeded and no address of the page makes the extraction raise. */
  ghost predicate Extracts(d: Delivery)
  {
    d.page.Some? && !exists k :: 0 <= k < |d.page.value| && Raising(d.urls, d.page.value[k])
  }

  ghost predicate Monotone(published: seq<int>, limit: int)
  {
    && (forall i, j :: 0 <= i < j < |published| ==> published[i] <= published[j])
    && (forall i :: 0 <= i < |published| ==> 0 <= published[i] <= limit)
  }

  lemma FiftiesAreMonotone(k: nat, n: nat)
    requires k <= n
    ensures Monotone(Fifties(k), n)
  {
  }

  lemma PublishStep(k: nat)
    ensures Fifties(k + 1) == Fifties(k) + if (k + 1) % PROGRESS_EVERY == 0 then [k + 1] else []
  {
  }

  lemma PublishLast(published: seq<int>, limit: int)
    requires Monotone(published, limit) && limit >= 0
    ensures Monotone(published + [limit], limit)
  {
  }

  /** The counts published while `k` checks finish: 50, 100 and so on. */
  function Fifties(k: nat): seq<int>
  {
    seq(k / 50, i => 50 * (i + 1))
  }

  /** The tables of one crawl job. */
  class CrawlStore {
    var job: Job
    var rows: seq<Row>

    constructor ()
      ensures job == NEW_JOB && rows == []
    {
      job, rows := NEW_JOB, [];
    }

    /** The `as_completed` loop. `None` means that a check raised; the pool has then been drained.
        `published` lists the values written to the checked column meanwhile. */
    method Collect(links: seq<Link>, env: Env) returns (results: Option<seq<Row>>, ghost published: seq<int>)
      requires |env.outcomes| == |links| && IsOrder(env.order, |links|)
      modifies this
      ensures job == old(job).(checked := job.checked) && rows == old(rows)
      ensures Monotone(published, |links|)
      ensures job.checked == if published == [] then old(job).checked else published[|published| - 1]
      ensures results.Some? ==> published == Fifties(|links|)
      ensures results.None? <==> Uncaught in env.outcomes
      ensures results.Some? ==> results.value == Map(RowAt(links, env.outcomes), env.order)
    {
      OrderFacts(env.order, |links|);
      published := [];
      var collected: seq<Row> := [];
      var checked := 0;
      for k := 0 to |env.order|
        invariant checked == k == |collected|
        invariant collected == Map(RowAt(links, env.outcomes), env.order[..k])
        invariant forall j :: 0 <= j < k ==> env.outcomes[env.order[j]] != Uncaught
        invariant job == old(job).(checked := job.checked) && rows == old(rows)
        invariant job.checked == if published == [] then old(job).checked else published[|published| - 1]
        invariant published == Fifties(k)
      {
        var i := env.order[k];
        var outcome := env.outcomes[i];
        if outcome == Uncaught {
          FiftiesAreMonotone(k, |links|);
          return None, published;
        }
        collected := collected + [Row(links[i], outcome.status, outcome.category, outcome.redirectUrl)];
        assert Map(RowAt(links, env.outcomes), env.order[..k + 1]) ==
               Map(RowAt(links, env.outcomes), env.order[..k]) + [RowOf(links[i], outcome)];
        checked := checked + 1;
        PublishStep(k);
        if checked % PROGRESS_EVERY == 0 {
          job := job.(checked := checked);
          published := published + [checked];
        }
      }
      assert env.order[..|env.order|] == env.order;
      AllChecked(env.order, env.outcomes);
      FiftiesAreMonotone(|links|, |links|);
      results := Some(collected);
    }

    method CountRows(results: seq<Row>, c: Category) returns (n: nat)
      ensures n == Tally(results, c)
    {
      n := 0;
      for k := 0 to |results|
        invariant n == Tally(results[..k], c)
      {
        assert results[..k + 1][..k] == results[..k];
        if results[k].category == c {
          n := n + 1;
        }
      }
      assert results[..|results|] == results;
    }

    /** The category counts and the final save of the whole job. */
    method FinalSave(links: seq<Link>, env: Env, results: seq<Row>)
      requires |env.outcomes| == |links| && IsOrder(env.order, |links|)
      requires results == Map(RowAt(links, env.outcomes), env.order)
      requires job.found == |links|
      modifies this`job
      ensures RolledUp(job, results, links, env.outcomes)
      ensures job.status == Completed
    {
      OrderFacts(env.order, |links|);
      var mine := job.(checked := |results|);
      var healthy := CountRows(results, Healthy);
      var broken := CountRows(results, Broken);
      var redirects := CountRows(results, Redirect);
      var timeouts := CountRows(results, Timeout);
      mine := mine.(healthy := healthy, broken := broken, redirects := redirects, timeouts := timeouts);
      mine := mine.(status := Completed);
      job := mine;
      RowsRollUp(links, env.outcomes, env.order, job, results);
    }

    /** From the extracted links to the final save; `ok` is false when an exception was raised. */
    method CheckLinks(links: seq<Link>, env: Env) returns (ok: bool, ghost published: seq<int>)
      requires |env.outcomes| == |links| && IsOrder(env.order, |links|)
      modifies this
      ensures ok <==> Uncaught !in env.outcomes && !env.insertFails && !env.saveFails
      ensures job.found == |links| && Monotone(published, |links|)
      ensures ok || env.saveFails || rows == old(rows)
      ensures ok ==>
                && job.status == Completed
                && |rows| >= |old(rows)| && rows[..|old(rows)|] == old(rows)
                && RolledUp(job, rows[|old(rows)|..], links, env.outcomes)
                && published != [] && published[|published| - 1] == job.checked
    {
      job := job.(found := |links|);
      job := job.(status := CheckingLinks);
      var results;
      results, published := Collect(links, env);
      if results.None? || env.insertFails {
        return false, published;
      }
      ghost var before := rows;
      rows := rows + results.value;
      assert rows[|before|..] == results.value && rows[..|before|] == before;
      if env.saveFails {
        return false, published;
      }
      FinalSave(links, env, results.value);
      assert rows[|old(rows)|..] == results.value;
      PublishLast(published, |links|);
      published := published + [job.checked];
      ok := true;
    }

    /** The checks of a delivery, each in its own way, finishing in the delivery's order. */
    method CheckFound(links: seq<Link>, d: Delivery) returns (ok: bool, ghost published: seq<int>)
      requires Orders(d.order) && DistinctTargets(links)
      modifies this
      ensures ok <==> Uncaught !in Map(d.check, links) && !d.insertFails && !d.saveFails
      ensures job.found == |links| && Monotone(published, |links|)
      ensures ok || d.saveFails || rows == old(rows)
      ensures ok ==>
                && job.status == Completed
                && |rows| >= |old(rows)| && rows[..|old(rows)|] == old(rows)
                && RolledUp(job, rows[|old(rows)|..], links, Map(d.check, links))
                && DistinctRows(rows[|old(rows)|..])
                && RecordsAll(rows[|old(rows)|..], links, d.check) && CountsChecks(job, Map(d.check, links))
                && published != [] && published[|published| - 1] == job.checked
    {
      ok, published := CheckLinks(links, Env(Map(d.check, links), d.order(|links|), d.insertFails, d.saveFails));
      if ok {
        RolledUpRecords(job, rows[|old(rows)|..], links, d.check);
        RolledUpCounts(job, rows[|old(rows)|..], links, Map(d.check, links));
      }
    }

    /** `run_link_check` for an existing job; one delivery. Earlier rows are never removed, so the stored
        rows are exactly this delivery's when the job is fresh. `found` is what the extraction gave. */
    method RunLinkCheck(maxLinks: int, d: Delivery) returns (ghost found: seq<Link>, ghost published: seq<int>)
      requires Orders(d.order)
      modifies this
      ensures Extracts(d) ==> FirstLinks(d.urls, d.page.value, found)
      ensures var done := Extracts(d) && Uncaught !in Map(d.check, Slice(found, maxLinks)) && !d.insertFails && !d.saveFails;
              job.status == if done then Completed else Failed
      ensures job.status == Completed ==>
                && |rows| >= |old(rows)| && rows[..|old(rows)|] == old(rows)
                && RolledUp(job, rows[|old(rows)|..], Slice(found, maxLinks), Map(d.check, Slice(found, maxLinks)))
                && DistinctRows(rows[|old(rows)|..])
                && RecordsAll(rows[|old(rows)|..], Slice(found, maxLinks), d.check)
                && CountsChecks(job, Map(d.check, Slice(found, maxLinks)))
                && published != [] && published[|published| - 1] == job.checked
      ensures job.status == Completed || d.saveFails || rows == old(rows)
      ensures Extracts(d) ==> Monotone(published, |Slice(found, maxLinks)|)
      ensures Extracts(d) && maxLinks >= 0 ==> job.found <= maxLinks
    {
      published, found := [], [];
      job := job.(status := Crawling);
      var ok := false;
      if d.page.Some? {
        var extracted := ExtractLinks(d.urls, d.page.value);
        if extracted.Some? {
          found := extracted.value;
          FirstLinksAreDistinct(d.urls, d.page.value, extracted.value, maxLinks);
          ok, published := CheckFound(Slice(extracted.value, maxLinks), d);
        }
      }
      if !ok {
        job := job.(status := Failed);
      }
    }
  }

  lemma AllChecked(order: seq<nat>, outcomes: seq<Outcome>)
    requires IsOrder(order, |outcomes|)
    requires forall k :: 0 <= k < |order| && order[k] < |outcomes| ==> outcomes[order[k]] != Uncaught
    ensures Uncaught !in outcomes
  {
    forall i | 0 <= i < |outcomes| ensures outcomes[i] != Uncaught {
      assert Range(|outcomes|)[i] == i;
      assert i in multiset(Range(|outcomes|));
      assert i in order;
      var k :| 0 <= k < |order| && order[k] == i;
    }
  }

  lemma RowsRollUp(links: seq<Link>, outcomes: seq<Outcome>, order: seq<nat>, job: Job, rows: seq<Row>)
    requires |outcomes| == |links| && IsOrder(order, |links|) && rows == Map(RowAt(links, outcomes), order)
    requires job.found == |links| && job.checked == |rows|
    requires job.healthy == Tally(rows, Healthy) && job.broken == Tally(rows, Broken)
    requires job.redirects == Tally(rows, Redirect) && job.timeouts == Tally(rows, Timeout)
    ensures RolledUp(job, rows, links, outcomes)
  {
    OrderFacts(order, |links|);
    MapPermutes(RowAt(links, outcomes), order, Range(|links|));
    FiveCategories(rows);
    if DistinctTargets(links) {
      RowsOfDistinctTargets(links, outcomes, order);
    }
  }

  // ------------------------------------------------------------------------------- the quick check

  datatype Brief = Brief(
    total: nat, healthy: nat, broken: nat, redirects: nat, timeouts: nat, errors: nat,
    brokenLinks: seq<(string, Option<int>)>)

  const BROKEN_SAMPLE := 15

  predicate IsBroken(r: Row) { r.category == Broken }

  function Shown(r: Row): (string, Option<int>) { (r.link.target, r.status) }

  function Sample(rows: seq<Row>): seq<(string, Option<int>)>
  {
    Map(Shown, Take(Filter(rows, IsBroken), BROKEN_SAMPLE))
  }

  lemma SampleStep(rows: seq<Row>, row: Row)
    ensures Sample(rows + [row]) ==
            Sample(rows) + if IsBroken(row) && |Sample(rows)| < BROKEN_SAMPLE then [Shown(row)] else []
  {
    assert (rows + [row])[..|rows|] == rows;
    MapAppend(Shown, Take(Filter(rows, IsBroken), BROKEN_SAMPLE), [row]);
  }

  /** `quick_link_check` after fetching and extraction; `None` when a check raises. */
  method QuickLinkCheck(found: seq<Link>, maxLinks: int, outcomes: seq<Outcome>, order: seq<nat>) returns (b: Option<Brief>)
    requires |outcomes| == |Slice(found, maxLinks)| && IsOrder(order, |outcomes|)
    ensures b.None? <==> Uncaught in outcomes
    ensures b.Some? ==>
              var rows := Map(RowAt(Slice(found, maxLinks), outcomes), order);
              && b.value.total == |Slice(found, maxLinks)|
              && b.value.healthy == Tally(rows, Healthy) && b.value.broken == Tally(rows, Broken)
              && b.value.redirects == Tally(rows, Redirect) && b.value.timeouts == Tally(rows, Timeout)
              && b.value.errors == Tally(rows, Failing)
              && b.value.healthy + b.value.broken + b.value.redirects + b.value.timeouts + b.value.errors == b.value.total
              && b.value.brokenLinks == Sample(rows)
  {
    var links := Slice(found, maxLinks);
    var counts: map<Category, nat> := map[Healthy := 0, Broken := 0, Redirect := 0, Timeout := 0, Failing := 0];
    var sample: seq<(string, Option<int>)> := [];
    ghost var rows: seq<Row> := [];
    OrderFacts(order, |links|);
    forall c: Category ensures c in counts && counts[c] == 0 {
      assert c == Healthy || c == Broken || c == Redirect || c == Timeout || c == Failing;
    }
    for k := 0 to |order|
      invariant rows == Map(RowAt(links, outcomes), order[..k])
      invariant forall j :: 0 <= j < k ==> outcomes[order[j]] != Uncaught
      invariant forall c: Category :: c in counts && counts[c] == Tally(rows, c)
      invariant sample == Sample(rows)
    {
      var i := order[k];
      var outcome := outcomes[i];
      if outcome == Uncaught {
        return None;
      }
      ghost var row := RowOf(links[i], outcome);
      assert Map(RowAt(links, outcomes), order[..k + 1]) == rows + [row];
      SampleStep(rows, row);
      forall c: Category ensures Tally(rows + [row], c) == Tally(rows, c) + if InCategory(row, c) then 1 else 0 {
        CountOne(rows, row, r => InCategory(r, c));
      }
      counts := counts[outcome.category := counts[outcome.category] + 1];
      if outcome.category == Broken && |sample| < BROKEN_SAMPLE {
        sample := sample + [(links[i].target, outcome.status)];
      }
      rows := rows + [row];
    }
    assert order[..|order|] == order;
    AllChecked(order, outcomes);
    FiveCategories(rows);
    b := Some(Brief(|links|, counts[Healthy], counts[Broken], counts[Redirect], counts[Timeout], counts[Failing], sample));
  }

  /** The sample holds min(15, broken) entries and all of them are broken links of the page. */
  lemma BrokenSample(rows: seq<Row>)
    ensures |Sample(rows)| == if Tally(rows, Broken) < 15 then Tally(rows, Broken) else 15
    ensures forall k :: 0 <= k < |Sample(rows)| ==>
              && k < |Filter(rows, IsBroken)|
              && Sample(rows)[k] == (Filter(rows, IsBroken)[k].link.target, Filter(rows, IsBroken)[k].status)
    ensures forall x :: x in Sample(rows) ==> exists r :: r in rows && IsBroken(r) && x == Shown(r)
  {
    var broken := Filter(rows, IsBroken);
    forall x | x in Sample(rows) ensures exists r :: r in rows && IsBroken(r) && x == Shown(r) {
      var k :| 0 <= k < |Sample(rows)| && Sample(rows)[k] == x;
      var r := broken[k];
      FilterMember(rows, IsBroken, r);
      assert r in rows && IsBroken(r) && x == Shown(r);
    }
    forall k | 0 <= k < |Sample(rows)| ensures Sample(rows)[k] == (broken[k].link.target, broken[k].status) {
      var taken := Take(broken, BROKEN_SAMPLE);
      assert taken[k] == broken[k] && Map(Shown, taken)[k] == Shown(taken[k]);
    }
    CountIsFilterLength(rows, IsBroken);
    SameCount(rows, IsBroken, r => InCategory(r, Broken));
  }

  lemma {:induction false} SameCount<T>(s: seq<T>, p: T -> bool, q: T -> bool)
    requires forall x :: p(x) == q(x)
    ensures Count(s, p) == Count(s, q)
  {
    if s != [] {
      SameCount(s[..|s| - 1], p, q);
    }
  }
}
