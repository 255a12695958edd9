/** The two aggregators over a page's structured data: the non-persisting summary and the job that
    rewrites its stored results. */
module ValidationService {
  import opened Prelude
  import opened Json
  import opened SchemaValidator

  datatype Format = JsonLd | Microdata | Rdfa

  /** What the three extractors found on a page. */
  datatype Extraction = Extraction(jsonLd: seq<Dict>, microdata: seq<Dict>, rdfa: seq<Dict>)

  /** One object with its verdict. */
  datatype Judged = Judged(format: Format, raw: Dict, verdict: Verdict)

  function Judge(lx: Lexer, rules: Rules, format: Format, d: Dict): Judged
  {
    Judged(format, d, Validate(lx, rules, ResolveType(d), d))
  }

  function JudgeAll(lx: Lexer, rules: Rules, format: Format, ds: seq<Dict>): seq<Judged>
  {
    seq(|ds|, k requires 0 <= k < |ds| => Judge(lx, rules, format, ds[k]))
  }

  /** Every object of the page, block after block. */
  function Judgements(lx: Lexer, rules: Rules, page: Extraction): seq<Judged>
  {
    JudgeAll(lx, rules, JsonLd, page.jsonLd) + JudgeAll(lx, rules, Microdata, page.microdata)
    + JudgeAll(lx, rules, Rdfa, page.rdfa)
  }

  /** An issue with the type reported for its object. */
  type Report = (string, Issue)

  predicate ErrorReport(x: Report) { IsError(x.1) }
  predicate WarningReport(x: Report) { IsWarning(x.1) }
  predicate InfoReport(x: Report) { IsInfo(x.1) }
  predicate NotInfoReport(x: Report) { !IsInfo(x.1) }
  predicate IsValid(j: Judged) { j.verdict.isValid }
  predicate IsRich(j: Judged) { j.verdict.rich }

  /** The issues of all objects, in order. */
  function IssuesOf(js: seq<Judged>): seq<Report>
  {
    if js == [] then []
    else IssuesOf(js[..|js| - 1]) + Labelled(js[|js| - 1].verdict.schemaType, js[|js| - 1].verdict.issues)
  }

  function Labelled(t: string, issues: seq<Issue>): seq<Report>
  {
    seq(|issues|, k requires 0 <= k < |issues| => (t, issues[k]))
  }

  function Errors(js: seq<Judged>): nat { Count(IssuesOf(js), ErrorReport) }
  function Warnings(js: seq<Judged>): nat { Count(IssuesOf(js), WarningReport) }
  function Infos(js: seq<Judged>): nat { Count(IssuesOf(js), InfoReport) }
  function Valid(js: seq<Judged>): nat { Count(js, IsValid) }
  function Rich(js: seq<Judged>): nat { Count(js, IsRich) }
  function Shown(js: seq<Judged>): seq<Report> { Filter(IssuesOf(js), NotInfoReport) }

  // ------------------------------------------------------------------------------ the summary

  datatype SchemaLine = SchemaLine(schemaType: string, format: Format, isValid: bool, errors: nat, warnings: nat, rich: bool)

  function Line(j: Judged): SchemaLine
  {
    SchemaLine(j.verdict.schemaType, j.format, j.verdict.isValid,
               Count(j.verdict.issues, IsError), Count(j.verdict.issues, IsWarning), j.verdict.rich)
  }

  function Lines(js: seq<Judged>): seq<SchemaLine>
  {
    seq(|js|, k requires 0 <= k < |js| => Line(js[k]))
  }

  datatype Summary = Summary(
    totalSchemas: nat, validSchemas: nat, totalErrors: nat, totalWarnings: nat, richEligible: nat,
    hasJsonLd: bool, hasMicrodata: bool, hasRdfa: bool,
    schemas: seq<SchemaLine>, issues: seq<Report>)

  lemma {:induction false} CountLabelled(t: string, issues: seq<Issue>, p: Issue -> bool, q: Report -> bool)
    requires forall i :: q((t, i)) == p(i)
    ensures Count(Labelled(t, issues), q) == Count(issues, p)
  {
    if issues != [] {
      var n := |issues| - 1;
      assert Labelled(t, issues)[..n] == Labelled(t, issues[..n]);
      CountLabelled(t, issues[..n], p, q);
    }
  }

  lemma IssuesOfAppend(js: seq<Judged>, j: Judged)
    ensures IssuesOf(js + [j]) == IssuesOf(js) + Labelled(j.verdict.schemaType, j.verdict.issues)
  {
    assert (js + [j])[..|js|] == js;
  }

  /** How one more object changes each total. */
  lemma Totals(js: seq<Judged>, j: Judged)
    ensures Errors(js + [j]) == Errors(js) + Count(j.verdict.issues, IsError)
    ensures Warnings(js + [j]) == Warnings(js) + Count(j.verdict.issues, IsWarning)
    ensures Infos(js + [j]) == Infos(js) + Count(j.verdict.issues, IsInfo)
    ensures Valid(js + [j]) == Valid(js) + if j.verdict.isValid then 1 else 0
    ensures Rich(js + [j]) == Rich(js) + if j.verdict.rich then 1 else 0
  {
    var more := Labelled(j.verdict.schemaType, j.verdict.issues);
    IssuesOfAppend(js, j);
    CountAppend(IssuesOf(js), more, ErrorReport);
    CountAppend(IssuesOf(js), more, WarningReport);
    CountAppend(IssuesOf(js), more, InfoReport);
    CountLabelled(j.verdict.schemaType, j.verdict.issues, IsError, ErrorReport);
    CountLabelled(j.verdict.schemaType, j.verdict.issues, IsWarning, WarningReport);
    CountLabelled(j.verdict.schemaType, j.verdict.issues, IsInfo, InfoReport);
    assert (js + [j])[..|js|] == js;
  }

  /** One more issue joins the sample unless it is INFO or the sample is full. */
  lemma ShownStep(all: seq<Report>, t: string, found: seq<Issue>, k: nat, maxItems: int)
    requires k < |found|
    ensures var was, now := Filter(all + Labelled(t, found[..k]), NotInfoReport), Filter(all + Labelled(t, found[..k + 1]), NotInfoReport);
            Take(now, maxItems) ==
            if IsInfo(found[k]) || |Take(was, maxItems)| >= maxItems then Take(was, maxItems)
            else Take(was, maxItems) + [(t, found[k])]
  {
    var before, next := all + Labelled(t, found[..k]), all + Labelled(t, found[..k + 1]);
    assert next[..|next| - 1] == before && next[|next| - 1] == (t, found[k]);
    if !IsInfo(found[k]) {
      TakeAppend(Filter(before, NotInfoReport), (t, found[k]), maxItems);
    }
  }

  /** The inner loop that samples issues: INFO is skipped, and the sample stops at the limit. */
  method SampleIssues(sample: seq<Report>, ghost all: seq<Report>, t: string, found: seq<Issue>, maxItems: int)
    returns (r: seq<Report>)
    requires sample == Take(Filter(all, NotInfoReport), maxItems)
    ensures r == Take(Filter(all + Labelled(t, found), NotInfoReport), maxItems)
  {
    r := sample;
    assert all + Labelled(t, []) == all;
    for k := 0 to |found|
      invariant r == Take(Filter(all + Labelled(t, found[..k]), NotInfoReport), maxItems)
    {
      ShownStep(all, t, found, k, maxItems);
      if !(IsInfo(found[k]) || |r| >= maxItems) {
        r := r + [(t, found[k])];
      }
    }
    assert found[..|found|] == found;
  }

  method CountSeverity(issues: seq<Issue>, p: Issue -> bool) returns (n: nat)
    ensures n == Count(issues, p)
  {
    n := 0;
    for k := 0 to |issues|
      invariant n == Count(issues[..k], p)
    {
      assert issues[..k + 1][..k] == issues[..k];
      if p(issues[k]) {
        n := n + 1;
      }
    }
    assert issues[..|issues|] == issues;
  }

  /** The running totals of the summary loop. */
  class Tally {
    var totalErrors: nat
    var totalWarnings: nat
    var valid: nat
    var rich: nat
    var schemas: seq<SchemaLine>
    var issues: seq<Report>

    ghost predicate Counts(js: seq<Judged>, maxItems: int)
      reads this
    {
      && totalErrors == Errors(js) && totalWarnings == Warnings(js) && valid == Valid(js) && rich == Rich(js)
      && schemas == Take(Lines(js), maxItems)
      && issues == Take(Shown(js), maxItems)
    }

    constructor (maxItems: int)
      ensures Counts([], maxItems)
    {
      totalErrors, totalWarnings, valid, rich, schemas, issues := 0, 0, 0, 0, [], [];
    }

    /** One pass of the loop body, after the object has been validated. */
    method Include(j: Judged, maxItems: int, ghost js: seq<Judged>)
      requires Counts(js, maxItems)
      modifies this
      ensures Counts(js + [j], maxItems)
    {
      var result := j.verdict;
      Totals(js, j);
      IssuesOfAppend(js, j);
      LinesAppend(js, j);
      TakeAppend(Lines(js), Line(j), maxItems);
      var errors := CountSeverity(result.issues, IsError);
      var warnings := CountSeverity(result.issues, IsWarning);
      var sample := SampleIssues(issues, IssuesOf(js), result.schemaType, result.issues, maxItems);
      totalErrors := totalErrors + errors;
      totalWarnings := totalWarnings + warnings;
      if result.isValid {
        valid := valid + 1;
      }
      if result.rich {
        rich := rich + 1;
      }
      if |schemas| < maxItems {
        schemas := schemas + [SchemaLine(result.schemaType, j.format, result.isValid, errors, warnings, result.rich)];
      }
      issues := sample;
    }

    method IncludeBlock(lx: Lexer, rules: Rules, format: Format, ds: seq<Dict>, maxItems: int, ghost js: seq<Judged>)
      requires Counts(js, maxItems)
      modifies this
      ensures Counts(js + JudgeAll(lx, rules, format, ds), maxItems)
    {
      ghost var done := js;
      assert js + JudgeAll(lx, rules, format, []) == js;
      for k := 0 to |ds|
        invariant done == js + JudgeAll(lx, rules, format, ds[..k])
        invariant Counts(done, maxItems)
      {
        var schemaType := ResolveType(ds[k]);
        var result := ValidateSchema(lx, rules, schemaType, ds[k]);
        var j := Judged(format, ds[k], result);
        Include(j, maxItems, done);
        JudgeAllStep(lx, rules, format, ds, k, js);
        done := done + [j];
      }
      assert ds[..|ds|] == ds;
    }
  }

  lemma TakeAppend<T>(s: seq<T>, x: T, n: int)
    ensures Take(s + [x], n) == if |Take(s, n)| < n then Take(s, n) + [x] else Take(s, n)
  {
  }

  lemma LinesAppend(js: seq<Judged>, j: Judged)
    ensures Lines(js + [j]) == Lines(js) + [Line(j)]
  {
  }

  lemma JudgeAllStep(lx: Lexer, rules: Rules, format: Format, ds: seq<Dict>, k: nat, js: seq<Judged>)
    requires k < |ds|
    ensures js + JudgeAll(lx, rules, format, ds[..k + 1]) ==
            js + JudgeAll(lx, rules, format, ds[..k]) + [Judge(lx, rules, format, ds[k])]
  {
  }

  function SummaryOf(js: seq<Judged>, page: Extraction, maxItems: int): Summary
  {
    Summary(|js|, Valid(js), Errors(js), Warnings(js), Rich(js),
            |page.jsonLd| > 0, |page.microdata| > 0, |page.rdfa| > 0,
            Take(Lines(js), maxItems), Take(Shown(js), maxItems))
  }

  /** `quick_schema_check`, on the extraction of the fetched page. */
  method QuickSchemaCheck(lx: Lexer, rules: Rules, page: Extraction, maxItems: int) returns (s: Summary)
    ensures s == SummaryOf(Judgements(lx, rules, page), page, maxItems)
  {
    var tally := new Tally(maxItems);
    assert [] + JudgeAll(lx, rules, JsonLd, page.jsonLd) == JudgeAll(lx, rules, JsonLd, page.jsonLd);
    tally.IncludeBlock(lx, rules, JsonLd, page.jsonLd, maxItems, []);
    tally.IncludeBlock(lx, rules, Microdata, page.microdata, maxItems, JudgeAll(lx, rules, JsonLd, page.jsonLd));
    tally.IncludeBlock(lx, rules, Rdfa, page.rdfa, maxItems,
                       JudgeAll(lx, rules, JsonLd, page.jsonLd) + JudgeAll(lx, rules, Microdata, page.microdata));
    var total := |page.jsonLd| + |page.microdata| + |page.rdfa|;
    s := Summary(total, tally.valid, tally.totalErrors, tally.totalWarnings, tally.rich,
                 |page.jsonLd| > 0, |page.microdata| > 0, |page.rdfa| > 0, tally.schemas, tally.issues);
  }

  // ------------------------------------------------------------------- how the totals are related

  /** The object's type is known but has no rule. */
  predicate RuleLess(j: Judged)
  {
    j.verdict.issues == [Issue(Info, TypeField, NoRules)]
  }

  /** What holds of every verdict the validator gives. */
  lemma VerdictFacts(lx: Lexer, rules: Rules, format: Format, d: Dict)
    ensures var j := Judge(lx, rules, format, d);
            && (j.verdict.rich ==> j.verdict.isValid)
            && (j.verdict.isValid <==> Count(j.verdict.issues, IsError) == 0)
            && Count(j.verdict.issues, IsInfo) == (if RuleLess(j) then 1 else 0)
            && |j.verdict.issues| == Count(j.verdict.issues, IsError) + Count(j.verdict.issues, IsWarning) + Count(j.verdict.issues, IsInfo)
  {
    var j := Judge(lx, rules, format, d);
    var issues := j.verdict.issues;
    CountZero(issues, IsError);
    CountZero(issues, IsInfo);
    Severities(issues);
    var info := [Issue(Info, TypeField, NoRules)];
    assert info[..0] == [] && Count(info, IsInfo) == 1;
    var t := ResolveType(d);
    if PARSE_ERROR_KEY !in d && t.Some? && t.value != "" {
      match GetRule(lx, rules, t.value)
      case None =>
        assert issues[..0] == [];
      case Some(rule) =>
        forall i | i in issues ensures !IsInfo(i) {
          RuleIssueMembers(lx, rule, d, i);
        }
    } else {
      assert IsError(issues[0]);
    }
  }

  lemma {:induction false} Severities(issues: seq<Issue>)
    ensures |issues| == Count(issues, IsError) + Count(issues, IsWarning) + Count(issues, IsInfo)
  {
    if issues != [] {
      Severities(issues[..|issues| - 1]);
    }
  }

  ghost predicate TotalsRelated(js: seq<Judged>)
  {
    && Rich(js) <= Valid(js) <= |js|
    && |js| - Valid(js) <= Errors(js)
    && (Errors(js) == 0 <==> Valid(js) == |js|)
    && Infos(js) == Count(js, RuleLess)
    && |IssuesOf(js)| == Errors(js) + Warnings(js) + Count(js, RuleLess)
  }

  lemma TotalsStep(lx: Lexer, rules: Rules, js: seq<Judged>, format: Format, d: Dict)
    requires TotalsRelated(js)
    ensures TotalsRelated(js + [Judge(lx, rules, format, d)])
  {
    var j := Judge(lx, rules, format, d);
    VerdictFacts(lx, rules, format, d);
    Totals(js, j);
    IssuesOfAppend(js, j);
    assert (js + [j])[..|js|] == js;
  }

  lemma {:induction false} TotalsBlock(lx: Lexer, rules: Rules, js: seq<Judged>, format: Format, ds: seq<Dict>)
    requires TotalsRelated(js)
    ensures TotalsRelated(js + JudgeAll(lx, rules, format, ds))
  {
    if ds == [] {
      assert js + JudgeAll(lx, rules, format, ds) == js;
    } else {
      var n := |ds| - 1;
      TotalsBlock(lx, rules, js, format, ds[..n]);
      JudgeAllStep(lx, rules, format, ds, n, js);
      assert ds[..n + 1] == ds;
      TotalsStep(lx, rules, js + JudgeAll(lx, rules, format, ds[..n]), format, ds[n]);
    }
  }

  /** On every page: rich <= valid <= total, every invalid object has an error, no error means all valid,
      and issues are errors, warnings and one INFO per object whose type has no rule. */
  lemma PageTotals(lx: Lexer, rules: Rules, page: Extraction)
    ensures TotalsRelated(Judgements(lx, rules, page))
  {
    var a := JudgeAll(lx, rules, JsonLd, page.jsonLd);
    var b := JudgeAll(lx, rules, Microdata, page.microdata);
    assert TotalsRelated([]);
    TotalsBlock(lx, rules, [], JsonLd, page.jsonLd);
    assert [] + a == a;
    TotalsBlock(lx, rules, a, Microdata, page.microdata);
    TotalsBlock(lx, rules, a + b, Rdfa, page.rdfa);
  }

  // --------------------------------------------------------------------- the summary, object by object

  /** Object `k` of the page: the script blocks first, then Microdata, then RDFa. */
  function ObjectAt(page: Extraction, k: nat): (Format, Dict)
    requires k < |page.jsonLd| + |page.microdata| + |page.rdfa|
  {
    var a, b := |page.jsonLd|, |page.microdata|;
    if k < a then (JsonLd, page.jsonLd[k])
    else if k < a + b then (Microdata, page.microdata[k - a])
    else (Rdfa, page.rdfa[k - a - b])
  }

  function Objects(page: Extraction): nat { |page.jsonLd| + |page.microdata| + |page.rdfa| }

  /** Its verdict, under its own type. */
  function VerdictAt(lx: Lexer, rules: Rules, page: Extraction, k: nat): Verdict
    requires k < Objects(page)
  {
    Validate(lx, rules, ResolveType(ObjectAt(page, k).1), ObjectAt(page, k).1)
  }

  lemma JudgementsAre(lx: Lexer, rules: Rules, page: Extraction)
    ensures var js := Judgements(lx, rules, page);
            && |js| == Objects(page)
            && forall k :: 0 <= k < |js| ==>
                 js[k] == Judged(ObjectAt(page, k).0, ObjectAt(page, k).1, VerdictAt(lx, rules, page, k))
  {
  }

  predicate OfSeverity(i: Issue, s: Severity) { i.severity == s }

  function Numbered(issues: seq<Issue>, s: Severity): nat { Count(issues, i => OfSeverity(i, s)) }

  lemma {:induction false} CountSame<T>(s: seq<T>, p: T -> bool, q: T -> bool)
    requires forall x :: x in s ==> p(x) == q(x)
    ensures Count(s, p) == Count(s, q)
  {
    if s != [] {
      assert s[|s| - 1] in s;
      CountSame(s[..|s| - 1], p, q);
    }
  }

  function Least(a: int, b: int): int { if a < b then a else b }

  /** The sampled lines: one for each of the first `maxItems` objects, with that object's own columns. */
  lemma LinesAre(lx: Lexer, rules: Rules, page: Extraction, maxItems: nat)
    ensures var lines := SummaryOf(Judgements(lx, rules, page), page, maxItems).schemas;
            && |lines| == Least(maxItems, Objects(page))
            && forall k :: 0 <= k < |lines| ==>
                 var v := VerdictAt(lx, rules, page, k);
                 lines[k] == SchemaLine(v.schemaType, ObjectAt(page, k).0, v.isValid,
                                        Numbered(v.issues, Severity.Error), Numbered(v.issues, Severity.Warning), v.rich)
  {
    var js := Judgements(lx, rules, page);
    JudgementsAre(lx, rules, page);
    forall k | 0 <= k < |js|
      ensures Count(js[k].verdict.issues, IsError) == Numbered(js[k].verdict.issues, Severity.Error)
      ensures Count(js[k].verdict.issues, IsWarning) == Numbered(js[k].verdict.issues, Severity.Warning)
    {
      CountSame(js[k].verdict.issues, IsError, i => OfSeverity(i, Severity.Error));
      CountSame(js[k].verdict.issues, IsWarning, i => OfSeverity(i, Severity.Warning));
    }
  }

  /** Sum of `f` over the objects before `n`. */
  function SumUpTo(n: nat, f: nat -> nat): nat
  {
    if n == 0 then 0 else SumUpTo(n - 1, f) + f(n - 1)
  }

  /** The verdicts of the page's objects, by position. */
  function Verdicts(lx: Lexer, rules: Rules, page: Extraction): nat -> Verdict
  {
    (k: nat) => if k < Objects(page) then VerdictAt(lx, rules, page, k) else Verdict("", false, false, [])
  }

  function SeverityOf(v: nat -> Verdict, s: Severity): nat -> nat { (k: nat) => Numbered(v(k).issues, s) }

  function ValidOf(v: nat -> Verdict): nat -> nat { (k: nat) => if v(k).isValid then 1 else 0 }

  function RichOf(v: nat -> Verdict): nat -> nat { (k: nat) => if v(k).rich then 1 else 0 }

  function SeverityIn(js: seq<Judged>, s: Severity): nat -> nat
  {
    (k: nat) => if k < |js| then Numbered(js[k].verdict.issues, s) else 0
  }

  function ValidIn(js: seq<Judged>): nat -> nat { (k: nat) => if k < |js| && js[k].verdict.isValid then 1 else 0 }

  function RichIn(js: seq<Judged>): nat -> nat { (k: nat) => if k < |js| && js[k].verdict.rich then 1 else 0 }

  lemma {:induction false} SumSame(n: nat, f: nat -> nat, g: nat -> nat)
    requires forall k :: 0 <= k < n ==> f(k) == g(k)
    ensures SumUpTo(n, f) == SumUpTo(n, g)
  {
    if n > 0 {
      SumSame(n - 1, f, g);
    }
  }

  lemma {:induction false} TotalsUpTo(js: seq<Judged>, n: nat)
    requires n <= |js|
    ensures Errors(js[..n]) == SumUpTo(n, SeverityIn(js, Severity.Error))
    ensures Warnings(js[..n]) == SumUpTo(n, SeverityIn(js, Severity.Warning))
    ensures Valid(js[..n]) == SumUpTo(n, ValidIn(js))
    ensures Rich(js[..n]) == SumUpTo(n, RichIn(js))
  {
    if n > 0 {
      var j := js[n - 1];
      TotalsUpTo(js, n - 1);
      assert js[..n] == js[..n - 1] + [j];
      Totals(js[..n - 1], j);
      CountSame(j.verdict.issues, IsError, i => OfSeverity(i, Severity.Error));
      CountSame(j.verdict.issues, IsWarning, i => OfSeverity(i, Severity.Warning));
    }
  }

  lemma TotalsOf(js: seq<Judged>, v: nat -> Verdict)
    requires forall k :: 0 <= k < |js| ==> js[k].verdict == v(k)
    ensures Errors(js) == SumUpTo(|js|, SeverityOf(v, Severity.Error))
    ensures Warnings(js) == SumUpTo(|js|, SeverityOf(v, Severity.Warning))
    ensures Valid(js) == SumUpTo(|js|, ValidOf(v))
    ensures Rich(js) == SumUpTo(|js|, RichOf(v))
  {
    TotalsUpTo(js, |js|);
    assert js[..|js|] == js;
    SumSame(|js|, SeverityIn(js, Severity.Error), SeverityOf(v, Severity.Error));
    SumSame(|js|, SeverityIn(js, Severity.Warning), SeverityOf(v, Severity.Warning));
    SumSame(|js|, ValidIn(js), ValidOf(v));
    SumSame(|js|, RichIn(js), RichOf(v));
  }

  /** The totals are the sums over the objects of the page. */
  lemma SummaryTotals(lx: Lexer, rules: Rules, page: Extraction, maxItems: int)
    ensures var s := SummaryOf(Judgements(lx, rules, page), page, maxItems);
            var n, v := Objects(page), Verdicts(lx, rules, page);
            && s.totalSchemas == n
            && s.totalErrors == SumUpTo(n, SeverityOf(v, Severity.Error))
            && s.totalWarnings == SumUpTo(n, SeverityOf(v, Severity.Warning))
            && s.validSchemas == SumUpTo(n, ValidOf(v))
            && s.richEligible == SumUpTo(n, RichOf(v))
            && (s.hasJsonLd <==> page.jsonLd != []) && (s.hasMicrodata <==> page.microdata != []) && (s.hasRdfa <==> page.rdfa != [])
  {
    JudgementsAre(lx, rules, page);
    TotalsOf(Judgements(lx, rules, page), Verdicts(lx, rules, page));
  }

  /** The reports of a verdict other than INFO, with its type. */
  function ShownBy(v: nat -> Verdict): nat -> seq<Report>
  {
    (k: nat) =>
      var kept := Filter(v(k).issues, i => !OfSeverity(i, Info));
      seq(|kept|, j requires 0 <= j < |kept| => (v(k).schemaType, kept[j]))
  }

  function JoinUpTo(n: nat, f: nat -> seq<Report>): seq<Report>
  {
    if n == 0 then [] else JoinUpTo(n - 1, f) + f(n - 1)
  }

  lemma {:induction false} FilterLabelled(t: string, issues: seq<Issue>)
    ensures Filter(Labelled(t, issues), NotInfoReport) == Labelled(t, Filter(issues, i => !OfSeverity(i, Info)))
  {
    if issues != [] {
      var n := |issues| - 1;
      assert Labelled(t, issues)[..n] == Labelled(t, issues[..n]);
      FilterLabelled(t, issues[..n]);
    }
  }

  function ShownIn(js: seq<Judged>): nat -> seq<Report>
  {
    (k: nat) =>
      if k < |js| then Labelled(js[k].verdict.schemaType, Filter(js[k].verdict.issues, i => !OfSeverity(i, Info))) else []
  }

  lemma {:induction false} JoinSame(n: nat, f: nat -> seq<Report>, g: nat -> seq<Report>)
    requires forall k :: 0 <= k < n ==> f(k) == g(k)
    ensures JoinUpTo(n, f) == JoinUpTo(n, g)
  {
    if n > 0 {
      JoinSame(n - 1, f, g);
    }
  }

  lemma {:induction false} ShownSnoc(before: seq<Judged>, j: Judged)
    ensures Shown(before + [j]) == Shown(before) + Labelled(j.verdict.schemaType, Filter(j.verdict.issues, i => !OfSeverity(i, Info)))
  {
    var here := Labelled(j.verdict.schemaType, j.verdict.issues);
    IssuesOfAppend(before, j);
    FilterAppend(IssuesOf(before), here, NotInfoReport);
    FilterLabelled(j.verdict.schemaType, j.verdict.issues);
  }

  lemma {:induction false} ShownUpTo(js: seq<Judged>, n: nat)
    requires n <= |js|
    ensures Shown(js[..n]) == JoinUpTo(n, ShownIn(js))
  {
    if n > 0 {
      var j := js[n - 1];
      ShownUpTo(js, n - 1);
      assert js[..n] == js[..n - 1] + [j];
      ShownSnoc(js[..n - 1], j);
    }
  }

  lemma ShownOf(js: seq<Judged>, v: nat -> Verdict)
    requires forall k :: 0 <= k < |js| ==> js[k].verdict == v(k)
    ensures Shown(js) == JoinUpTo(|js|, ShownBy(v))
  {
    ShownUpTo(js, |js|);
    assert js[..|js|] == js;
    JoinSame(|js|, ShownIn(js), ShownBy(v));
  }

  /** The sampled issues: the first `maxItems` that are not INFO, object by object. */
  lemma SampledIssuesAre(lx: Lexer, rules: Rules, page: Extraction, maxItems: nat)
    ensures var sample := SummaryOf(Judgements(lx, rules, page), page, maxItems).issues;
            var all := JoinUpTo(Objects(page), ShownBy(Verdicts(lx, rules, page)));
            sample == all[..Least(maxItems, |all|)]
  {
    JudgementsAre(lx, rules, page);
    ShownOf(Judgements(lx, rules, page), Verdicts(lx, rules, page));
    TakeIs(Shown(Judgements(lx, rules, page)), maxItems);
  }

  lemma TakeIs<T>(s: seq<T>, n: nat)
    ensures Take(s, n) == s[..Least(n, |s|)]
  {
  }
}
