/** The stored validation job: its row, its schema items and their issues, across re-runs and faults. */
module ValidationJobs {
  import opened Prelude
  import opened Json
  import opened SchemaValidator
  import opened ValidationService

  datatype Status = Pending | Processing | Completed | Failed

  datatype Job = Job(
    status: Status,
    totalSchemas: int, totalErrors: int, totalWarnings: int,
    hasJsonLd: bool, hasMicrodata: bool, hasRdfa: bool,
    error: Option<string>)

  datatype ItemRow = ItemRow(schemaType: string, format: Format, raw: Dict, isValid: bool, rich: bool)

  /** `item` is the position of the issue's schema item. */
  datatype IssueRow = IssueRow(item: nat, issue: Issue)

  datatype Db = Db(job: Job, items: seq<ItemRow>, issues: seq<IssueRow>)

  const FRESH := Db(Job(Pending, 0, 0, 0, false, false, false, None), [], [])

  predicate ErrorRow(r: IssueRow) { IsError(r.issue) }
  predicate WarningRow(r: IssueRow) { IsWarning(r.issue) }

  ghost predicate HasFormat(items: seq<ItemRow>, f: Format) { exists k :: 0 <= k < |items| && items[k].format == f }

  /** The totals and flags of the job row say exactly what is stored, and every issue has its item. */
  ghost predicate Agrees(db: Db)
  {
    && db.job.totalSchemas == |db.items|
    && db.job.totalErrors == Count(db.issues, ErrorRow)
    && db.job.totalWarnings == Count(db.issues, WarningRow)
    && (db.job.hasJsonLd <==> HasFormat(db.items, JsonLd))
    && (db.job.hasMicrodata <==> HasFormat(db.items, Microdata))
    && (db.job.hasRdfa <==> HasFormat(db.items, Rdfa))
    && (forall k :: 0 <= k < |db.issues| ==> db.issues[k].item < |db.items|)
  }

  // ------------------------------------------------------------------------- what a page stores

  function ItemOf(j: Judged): ItemRow
  {
    ItemRow(j.verdict.schemaType, j.format, j.raw, j.verdict.isValid, j.verdict.rich)
  }

  function ItemsOf(js: seq<Judged>): seq<ItemRow>
  {
    seq(|js|, k requires 0 <= k < |js| => ItemOf(js[k]))
  }

  function Owned(item: nat, issues: seq<Issue>): seq<IssueRow>
  {
    seq(|issues|, k requires 0 <= k < |issues| => IssueRow(item, issues[k]))
  }

  function IssueRowsOf(js: seq<Judged>): seq<IssueRow>
  {
    if js == [] then []
    else IssueRowsOf(js[..|js| - 1]) + Owned(|js| - 1, js[|js| - 1].verdict.issues)
  }

  /** A job that has just been completed on a page. */
  function CompletedDb(js: seq<Judged>, page: Extraction): Db
  {
    Db(Job(Completed, |js|, Errors(js), Warnings(js),
           |page.jsonLd| > 0, |page.microdata| > 0, |page.rdfa| > 0, None),
       ItemsOf(js), IssueRowsOf(js))
  }

  lemma {:induction false} CountOwned(item: nat, issues: seq<Issue>)
    ensures Count(Owned(item, issues), ErrorRow) == Count(issues, IsError)
    ensures Count(Owned(item, issues), WarningRow) == Count(issues, IsWarning)
  {
    if issues != [] {
      var n := |issues| - 1;
      assert Owned(item, issues)[..n] == Owned(item, issues[..n]);
      CountOwned(item, issues[..n]);
    }
  }

  lemma {:induction false} StoredCounts(js: seq<Judged>)
    ensures Count(IssueRowsOf(js), ErrorRow) == Errors(js)
    ensures Count(IssueRowsOf(js), WarningRow) == Warnings(js)
    ensures |IssueRowsOf(js)| == |IssuesOf(js)|
    ensures forall k :: 0 <= k < |IssueRowsOf(js)| ==> IssueRowsOf(js)[k].item < |js|
  {
    if js != [] {
      var rest, last := js[..|js| - 1], js[|js| - 1];
      StoredCounts(rest);
      Totals(rest, last);
      IssuesOfAppend(rest, last);
      assert js == rest + [last];
      CountOwned(|rest|, last.verdict.issues);
      CountAppend(IssueRowsOf(rest), Owned(|rest|, last.verdict.issues), ErrorRow);
      CountAppend(IssueRowsOf(rest), Owned(|rest|, last.verdict.issues), WarningRow);
    }
  }

  lemma FormatsOf(lx: Lexer, rules: Rules, page: Extraction)
    ensures var items := ItemsOf(Judgements(lx, rules, page));
            && (|page.jsonLd| > 0 <==> HasFormat(items, JsonLd))
            && (|page.microdata| > 0 <==> HasFormat(items, Microdata))
            && (|page.rdfa| > 0 <==> HasFormat(items, Rdfa))
  {
    var items := ItemsOf(Judgements(lx, rules, page));
    var a, b := |page.jsonLd|, |page.microdata|;
    assert a > 0 ==> items[0].format == JsonLd;
    assert b > 0 ==> items[a].format == Microdata;
    assert |page.rdfa| > 0 ==> items[a + b].format == Rdfa;
  }

  lemma CompletedAgrees(lx: Lexer, rules: Rules, page: Extraction)
    ensures Agrees(CompletedDb(Judgements(lx, rules, page), page))
  {
    StoredCounts(Judgements(lx, rules, page));
    FormatsOf(lx, rules, page);
  }

  // ------------------------------------------------------------------------------ one delivery

  /** Where a delivery ends early. The process may die at any of these points; outside the try block a
      failing save has the same effect on the database. */
  datatype Stop = Never | BeforeProcessing | BeforeTransaction | InTransaction | BeforeFailedSave

  /** `page` is what fetching and extracting gave; `txError` makes the transaction raise. */
  datatype Env = Env(page: Result<Extraction, string>, txError: Option<string>, stop: Stop)

  function MarkFailed(db: Db, env: Env, message: string): Db
  {
    if env.stop == BeforeFailedSave then db else db.(job := db.job.(status := Failed, error := Some(message)))
  }

  /** The committed effect of one delivery. */
  function Deliver(lx: Lexer, rules: Rules, db: Db, env: Env): Db
  {
    if env.stop == BeforeProcessing then db
    else
      var d := db.(job := db.job.(status := Processing));
      if env.page.Err? then if env.stop == BeforeTransaction then d else MarkFailed(d, env, env.page.error)
      else if env.stop == BeforeTransaction || env.stop == InTransaction then d
      else if env.txError.Some? then MarkFailed(d, env, env.txError.value)
      else CompletedDb(Judgements(lx, rules, env.page.value), env.page.value)
  }

  /** Deliveries handled one after the other. */
  function DeliverAll(lx: Lexer, rules: Rules, db: Db, envs: seq<Env>): Db
  {
    if envs == [] then db else Deliver(lx, rules, DeliverAll(lx, rules, db, envs[..|envs| - 1]), envs[|envs| - 1])
  }

  /** Everything but the status columns. */
  ghost predicate SameContent(a: Db, b: Db)
  {
    a.(job := a.job.(status := Pending, error := None)) == b.(job := b.job.(status := Pending, error := None))
  }

  /** A delivery replaces the whole content or none of it, and replaces it exactly when it completes. */
  lemma DeliveryIsAtomic(lx: Lexer, rules: Rules, db: Db, env: Env)
    ensures var d := Deliver(lx, rules, db, env);
            || SameContent(d, db)
            || (env.page.Ok? && d == CompletedDb(Judgements(lx, rules, env.page.value), env.page.value))
    ensures var d := Deliver(lx, rules, db, env);
            env.stop != BeforeProcessing && d.job.status == Completed ==>
              env.page.Ok? && d == CompletedDb(Judgements(lx, rules, env.page.value), env.page.value)
  {
  }

  lemma SameContentAgrees(a: Db, b: Db)
    requires SameContent(a, b) && Agrees(b)
    ensures Agrees(a)
  {
    assert a.items == b.items && a.issues == b.issues;
    assert a.job.(status := Pending, error := None) == b.job.(status := Pending, error := None);
  }

  /** At every committed state, across re-runs, rollbacks, failures and deaths, the job row agrees with
      the stored items and issues. */
  lemma {:induction false} AlwaysAgrees(lx: Lexer, rules: Rules, envs: seq<Env>)
    ensures Agrees(DeliverAll(lx, rules, FRESH, envs))
  {
    if envs != [] {
      var before := DeliverAll(lx, rules, FRESH, envs[..|envs| - 1]);
      var env := envs[|envs| - 1];
      AlwaysAgrees(lx, rules, envs[..|envs| - 1]);
      DeliveryIsAtomic(lx, rules, before, env);
      if SameContent(Deliver(lx, rules, before, env), before) {
        SameContentAgrees(Deliver(lx, rules, before, env), before);
      } else {
        CompletedAgrees(lx, rules, env.page.value);
      }
    }
  }

  /** Some delivery in `envs` has run to its end on `page`. */
  ghost predicate Finishes(env: Env, page: Extraction)
  {
    env.page == Ok(page) && env.txError.None? && env.stop !in {BeforeProcessing, BeforeTransaction, InTransaction}
  }

  /** Re-running on the same page leaves the content of one run, whatever happened before and whatever
      faults the later deliveries of that page met. */
  lemma {:induction false} RerunLeavesOneRun(lx: Lexer, rules: Rules, envs: seq<Env>, k: nat, page: Extraction)
    requires k < |envs| && Finishes(envs[k], page)
    requires forall i :: k < i < |envs| ==> envs[i].page.Ok? ==> envs[i].page.value == page
    ensures SameContent(DeliverAll(lx, rules, FRESH, envs), CompletedDb(Judgements(lx, rules, page), page))
  {
    var n := |envs| - 1;
    if k < n {
      RerunLeavesOneRun(lx, rules, envs[..n], k, page);
      DeliveryIsAtomic(lx, rules, DeliverAll(lx, rules, FRESH, envs[..n]), envs[n]);
    }
  }

  // ------------------------------------------------------------------------- the service itself

  /** The rows being prepared in memory. */
  class Batch {
    var items: seq<ItemRow>
    var issues: seq<IssueRow>
    var totalErrors: nat
    var totalWarnings: nat

    ghost predicate Holds(js: seq<Judged>)
      reads this
    {
      items == ItemsOf(js) && issues == IssueRowsOf(js) && totalErrors == Errors(js) && totalWarnings == Warnings(js)
    }

    constructor ()
      ensures Holds([])
    {
      items, issues, totalErrors, totalWarnings := [], [], 0, 0;
    }

    method AddIssues(item: nat, found: seq<Issue>)
      modifies this
      ensures items == old(items)
      ensures issues == old(issues) + Owned(item, found)
      ensures totalErrors == old(totalErrors) + Count(found, IsError)
      ensures totalWarnings == old(totalWarnings) + Count(found, IsWarning)
    {
      for k := 0 to |found|
        invariant items == old(items)
        invariant issues == old(issues) + Owned(item, found[..k])
        invariant totalErrors == old(totalErrors) + Count(found[..k], IsError)
        invariant totalWarnings == old(totalWarnings) + Count(found[..k], IsWarning)
      {
        assert found[..k + 1][..k] == found[..k];
        assert Owned(item, found[..k + 1]) == Owned(item, found[..k]) + [IssueRow(item, found[k])];
        issues := issues + [IssueRow(item, found[k])];
        if found[k].severity == Severity.Error {
          totalErrors := totalErrors + 1;
        } else if found[k].severity == Severity.Warning {
          totalWarnings := totalWarnings + 1;
        }
      }
      assert found[..|found|] == found;
    }

    method Include(j: Judged, ghost js: seq<Judged>)
      requires Holds(js)
      modifies this
      ensures Holds(js + [j])
    {
      Totals(js, j);
      ghost var next := js + [j];
      assert next[..|next| - 1] == js;
      assert ItemsOf(next) == ItemsOf(js) + [ItemOf(j)];
      var item := |items|;
      items := items + [ItemRow(j.verdict.schemaType, j.format, j.raw, j.verdict.isValid, j.verdict.rich)];
      AddIssues(item, j.verdict.issues);
    }

    method IncludeBlock(lx: Lexer, rules: Rules, format: Format, ds: seq<Dict>, ghost js: seq<Judged>)
      requires Holds(js)
      modifies this
      ensures Holds(js + JudgeAll(lx, rules, format, ds))
    {
      ghost var done := js;
      assert js + JudgeAll(lx, rules, format, []) == js;
      for k := 0 to |ds|
        invariant done == js + JudgeAll(lx, rules, format, ds[..k])
        invariant Holds(done)
      {
        var schemaType := ResolveType(ds[k]);
        var result := ValidateSchema(lx, rules, schemaType, ds[k]);
        var j := Judged(format, ds[k], result);
        Include(j, done);
        JudgeAllStep(lx, rules, format, ds, k, js);
        done := done + [j];
      }
      assert ds[..|ds|] == ds;
    }
  }

  /** The committed tables of one job. */
  class JobStore {
    var job: Job
    var items: seq<ItemRow>
    var issues: seq<IssueRow>

    function Contents(): Db
      reads this
    {
      Db(job, items, issues)
    }

    constructor ()
      ensures Contents() == FRESH
    {
      job, items, issues := FRESH.job, [], [];
    }

    /** `process_validation`. `mine` is the in-memory job object; a save with named columns writes only
        those, so the totals it carries after a rollback never reach the table. */
    method Process(lx: Lexer, rules: Rules, env: Env)
      modifies this
      ensures Contents() == Deliver(lx, rules, old(Contents()), env)
    {
      var mine := job;
      if env.stop == BeforeProcessing {
        return;
      }
      mine := mine.(status := Processing);
      job := job.(status := mine.status);
      if env.stop == BeforeTransaction {
        return;
      }
      var failure: Option<string> := None;
      if env.page.Err? {
        failure := Some(env.page.error);
      } else {
        var batch := Prepare(lx, rules, env.page.value);
        mine := Replace(mine, env.page.value, batch, env.stop == InTransaction || env.txError.Some?, Judgements(lx, rules, env.page.value));
        if env.stop == InTransaction {
          return;
        }
        failure := env.txError;
      }
      if failure.Some? {
        mine := mine.(status := Failed);
        mine := mine.(error := failure);
        if env.stop == BeforeFailedSave {
          return;
        }
        job := job.(status := mine.status, error := mine.error);
      }
    }

    /** The atomic block: delete, recreate, save the whole job object; undone if it is aborted. */
    method Replace(loaded: Job, page: Extraction, batch: Batch, aborts: bool, ghost js: seq<Judged>) returns (mine: Job)
      requires batch.Holds(js) && |js| == |batch.items|
      modifies this
      ensures Contents() == if aborts then old(Contents()) else CompletedDb(js, page)
    {
      mine := loaded;
      var savedJob, savedItems, savedIssues := job, items, issues;
      items, issues := [], [];
      items := items + batch.items;
      issues := issues + batch.issues;
      mine := mine.(totalSchemas := |batch.items|);
      mine := mine.(totalErrors := batch.totalErrors);
      mine := mine.(totalWarnings := batch.totalWarnings);
      mine := mine.(hasJsonLd := |page.jsonLd| > 0);
      mine := mine.(hasMicrodata := |page.microdata| > 0);
      mine := mine.(hasRdfa := |page.rdfa| > 0);
      mine := mine.(status := Completed);
      mine := mine.(error := None);
      job := mine;
      if aborts {
        job, items, issues := savedJob, savedItems, savedIssues;
      }
    }

    method Prepare(lx: Lexer, rules: Rules, page: Extraction) returns (batch: Batch)
      ensures fresh(batch) && batch.Holds(Judgements(lx, rules, page))
    {
      batch := new Batch();
      ghost var a, b := JudgeAll(lx, rules, JsonLd, page.jsonLd), JudgeAll(lx, rules, Microdata, page.microdata);
      assert [] + a == a;
      batch.IncludeBlock(lx, rules, JsonLd, page.jsonLd, []);
      batch.IncludeBlock(lx, rules, Microdata, page.microdata, a);
      batch.IncludeBlock(lx, rules, Rdfa, page.rdfa, a + b);
    }
  }

  /** The two aggregators compute the same totals over any page. */
  lemma AggregatorsAgree(lx: Lexer, rules: Rules, page: Extraction, maxItems: int)
    ensures var js := Judgements(lx, rules, page);
            var s, d := SummaryOf(js, page, maxItems), CompletedDb(js, page);
            && s.totalSchemas == d.job.totalSchemas == |d.items|
            && s.totalErrors == d.job.totalErrors == Count(d.issues, ErrorRow)
            && s.totalWarnings == d.job.totalWarnings == Count(d.issues, WarningRow)
            && s.hasJsonLd == d.job.hasJsonLd && s.hasMicrodata == d.job.hasMicrodata && s.hasRdfa == d.job.hasRdfa
            && |d.issues| == s.totalErrors + s.totalWarnings + Count(js, RuleLess)
            && s.richEligible <= s.validSchemas <= s.totalSchemas
            && (s.totalErrors == 0 <==> s.validSchemas == s.totalSchemas)
            && s.totalSchemas - s.validSchemas <= s.totalErrors
  {
    StoredCounts(Judgements(lx, rules, page));
    PageTotals(lx, rules, page);
  }

  // ------------------------------------------------------------------------ what is stored, row by row

  /** The issues stored for item `k`. */
  function IssuesAt(issues: seq<IssueRow>, k: nat): seq<IssueRow>
  {
    Filter(issues, OfItem(k))
  }

  function OfItem(k: nat): IssueRow -> bool { (r: IssueRow) => r.item == k }

  ghost predicate InItemOrder(issues: seq<IssueRow>)
  {
    forall i, j :: 0 <= i < j < |issues| ==> issues[i].item <= issues[j].item
  }

  lemma OwnedAt(item: nat, issues: seq<Issue>, k: nat)
    ensures IssuesAt(Owned(item, issues), k) == if item == k then Owned(item, issues) else []
  {
    var rows := Owned(item, issues);
    if item == k {
      FilterWhole(rows, OfItem(k));
      FilterAllKept(rows, OfItem(k));
    } else {
      FilterNone(rows, OfItem(k));
    }
  }

  lemma FilterAllKept<T>(s: seq<T>, p: T -> bool)
    requires forall x :: x in s ==> p(x)
    ensures Filter(s, p) == s
  {
    FilterWhole(s, p);
  }

  lemma {:induction false} RowsOfItem(js: seq<Judged>, k: nat)
    ensures InItemOrder(IssueRowsOf(js)) && forall r :: r in IssueRowsOf(js) ==> r.item < |js|
    ensures IssuesAt(IssueRowsOf(js), k) == if k < |js| then Owned(k, js[k].verdict.issues) else []
  {
    if js != [] {
      var n := |js| - 1;
      var before, here := IssueRowsOf(js[..n]), Owned(n, js[n].verdict.issues);
      RowsOfItem(js[..n], k);
      OwnedAt(n, js[n].verdict.issues, k);
      RowsJoin(before, here, n, k);
      assert IssueRowsOf(js) == before + here;
    }
  }

  lemma RowsJoin(before: seq<IssueRow>, here: seq<IssueRow>, n: nat, k: nat)
    requires InItemOrder(before) && (forall r :: r in before ==> r.item < n) && forall r :: r in here ==> r.item == n
    ensures IssuesAt(before + here, k) == IssuesAt(before, k) + IssuesAt(here, k)
    ensures InItemOrder(before + here) && forall r :: r in before + here ==> r.item <= n
  {
    FilterAppend(before, here, OfItem(k));
    ItemOrderJoin(before, here, n);
  }

  lemma ItemOrderJoin(a: seq<IssueRow>, b: seq<IssueRow>, n: nat)
    requires InItemOrder(a) && (forall r :: r in a ==> r.item < n) && forall r :: r in b ==> r.item == n
    ensures InItemOrder(a + b) && forall r :: r in a + b ==> r.item <= n
  {
    forall i, j | 0 <= i < j < |a + b| ensures (a + b)[i].item <= (a + b)[j].item {
      if i < |a| {
        assert a[i] in a;
        if j >= |a| {
          assert b[j - |a|] in b;
        }
      } else {
        assert b[i - |a|] in b && b[j - |a|] in b;
      }
    }
  }

  /** The rows of a completed job: one item per object of the page with its own columns, and for each item its
      issues in the validator's order; nothing else. */
  ghost predicate StoredRows(lx: Lexer, rules: Rules, page: Extraction, db: Db)
  {
    && |db.items| == Objects(page)
    && (forall k :: 0 <= k < |db.items| ==>
          var v := VerdictAt(lx, rules, page, k);
          && db.items[k] == ItemRow(v.schemaType, ObjectAt(page, k).0, ObjectAt(page, k).1, v.isValid, v.rich)
          && IssuesAt(db.issues, k) == seq(|v.issues|, j requires 0 <= j < |v.issues| => IssueRow(k, v.issues[j])))
    && InItemOrder(db.issues) && (forall r :: r in db.issues ==> r.item < |db.items|)
    && db.job == Job(Completed, Objects(page),
                     SumUpTo(Objects(page), SeverityOf(Verdicts(lx, rules, page), Severity.Error)),
                     SumUpTo(Objects(page), SeverityOf(Verdicts(lx, rules, page), Severity.Warning)),
                     page.jsonLd != [], page.microdata != [], page.rdfa != [], None)
  }

  /** The same for judged objects. */
  ghost predicate RowsFor(js: seq<Judged>, items: seq<ItemRow>, issues: seq<IssueRow>)
  {
    && |items| == |js|
    && (forall k :: 0 <= k < |js| ==>
          var v := js[k].verdict;
          && items[k] == ItemRow(v.schemaType, js[k].format, js[k].raw, v.isValid, v.rich)
          && IssuesAt(issues, k) == Owned(k, v.issues))
    && InItemOrder(issues) && (forall r :: r in issues ==> r.item < |items|)
  }

  lemma RowsAreStored(js: seq<Judged>)
    ensures RowsFor(js, ItemsOf(js), IssueRowsOf(js))
  {
    RowsOfItem(js, 0);
    forall k | 0 <= k < |js| ensures IssuesAt(IssueRowsOf(js), k) == Owned(k, js[k].verdict.issues) {
      RowsOfItem(js, k);
    }
  }

  lemma CompletedIsStored(lx: Lexer, rules: Rules, page: Extraction)
    ensures StoredRows(lx, rules, page, CompletedDb(Judgements(lx, rules, page), page))
  {
    var js := Judgements(lx, rules, page);
    JudgementsAre(lx, rules, page);
    RowsAreStored(js);
    TotalsOf(js, Verdicts(lx, rules, page));
    StoredFrom(lx, rules, page, js, CompletedDb(js, page));
  }

  lemma StoredFrom(lx: Lexer, rules: Rules, page: Extraction, js: seq<Judged>, d: Db)
    requires |js| == Objects(page) && RowsFor(js, d.items, d.issues)
    requires forall k :: 0 <= k < |js| ==> js[k] == Judged(ObjectAt(page, k).0, ObjectAt(page, k).1, VerdictAt(lx, rules, page, k))
    requires d.job == Job(Completed, |js|,
                          SumUpTo(Objects(page), SeverityOf(Verdicts(lx, rules, page), Severity.Error)),
                          SumUpTo(Objects(page), SeverityOf(Verdicts(lx, rules, page), Severity.Warning)),
                          |page.jsonLd| > 0, |page.microdata| > 0, |page.rdfa| > 0, None)
    ensures StoredRows(lx, rules, page, d)
  {
    forall k | 0 <= k < |d.items|
      ensures var v := VerdictAt(lx, rules, page, k);
              && d.items[k] == ItemRow(v.schemaType, ObjectAt(page, k).0, ObjectAt(page, k).1, v.isValid, v.rich)
              && IssuesAt(d.issues, k) == seq(|v.issues|, j requires 0 <= j < |v.issues| => IssueRow(k, v.issues[j]))
    {
      assert js[k].verdict == VerdictAt(lx, rules, page, k);
      assert IssuesAt(d.issues, k) == Owned(k, js[k].verdict.issues);
    }
  }

  /** The error that ends a delivery, if any: that of fetching and extracting, else that of the transaction. */
  function ErrorOf(env: Env): Option<string>
  {
    match env.page case Err(e) => Some(e) case Ok(_) => env.txError
  }

  /** What one delivery leaves. A dead worker leaves the job as it last was; an error is saved with status
      Failed and nothing else; otherwise the page is stored. */
  lemma DeliveryResult(lx: Lexer, rules: Rules, db: Db, env: Env)
    ensures var d := Deliver(lx, rules, db, env);
            var started := db.(job := db.job.(status := Processing));
            if env.stop == BeforeProcessing then d == db
            else if env.stop == BeforeTransaction || (env.stop == InTransaction && env.page.Ok?) then d == started
            else if ErrorOf(env).Some? then
              d == if env.stop == BeforeFailedSave then started
                   else started.(job := db.job.(status := Failed, error := ErrorOf(env)))
            else env.page.Ok? && StoredRows(lx, rules, env.page.value, d)
  {
    if env.page.Ok? {
      CompletedIsStored(lx, rules, env.page.value);
    }
  }
}
