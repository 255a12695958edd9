# Site analysis service: a verified model

The service analyses web sites: it sells credits, runs accessibility audits against them, extracts and
validates structured data, drives GTmetrix tests, checks links and builds a PDF report. This project
models the parts with state, ordering or recursion and proves what they promise, over every input, every
run and every interleaving. `dafny verify dfyconfig.toml` checks all of it.

| file | what it models |
|---|---|
| `Prelude.dfy`, `Json.dfy`, `PyText.dfy` | folds over sequences, JSON values, Python string functions |
| `Credits.dfy` | the credit ledger and the rows of an audit: effects of single transactions, the service as a class |
| `AuditProtocol.dfy` | any number of purchases, deductions and audits interleaved step by step, with row lock, private transaction buffers, rollbacks and deaths |
| `SoloAudit.dfy` | the protocol without interference equals the service |
| `JsonLd.dfy` | the recursive `@graph` flattener and the script blocks |
| `Markup.dfy`, `Capture.dfy`, `Contribution.dfy`, `Syntaxes.dfy` | extraction from an element tree, over any syntax: the scan, which elements are captured, the dicts they end up in; then Microdata and RDFa |
| `SchemaValidator.dfy`, `SchemaReports.dfy` | the rule-driven validator over any rule table; what its verdicts say |
| `ValidationService.dfy`, `ValidationJobs.dfy` | the summary, and the stored job across re-runs and faults |
| `Gtmetrix.dfy` | starting a test once, retrying, polling |
| `LinkChecker.dfy`, `LinkRollup.dfy` | redirects, link extraction, roll-ups over any completion order |
| `AnalysisHistory.dfy` | the history roll-up and its cache |
| `PdfBuilder.dfy` | the overall score and the table bookkeeping |

Conventions. The database is its committed rows; an atomic block works on the same fields and restores
them when it fails, or (in `AuditProtocol`) on a private buffer published at commit. Locking reads follow
PostgreSQL at READ COMMITTED: a locking read waits for the holder and then sees the committed row.
Network answers, clocks, parsers, completion orders and faults are parameters, so every theorem is about
all of them. The root of an element tree is the parsed document itself, which carries no attributes. Python's
`float()`, `lower()`, `urljoin` and `urlparse` are function parameters too.

Where code and documentation disagree, the model follows the code:

- The comment at `apps/credits/models/credit_balance.py:20-21` says that the balance is purchases minus
  usage. It holds exactly while no credit was added other than by purchase (`DocumentedIdentity`).
- The comment at `apps/gtmetrix/services/gtmetrix_service.py:53-56` says that a submission never spends
  more than one test credit. It can, when the id is lost before it is saved (`SecondStartAfterDeath`); the
  exact account is `StartsAccounted`, and `OneCreditIff` says for which attempts the promise holds.
- `check_single_link` is documented never to raise; only `httpx.HTTPError` is caught. `UncaughtIff` gives the
  servers for which it raises, `UnresolvableRedirect` one of them; the crawl then fails.
- `extract_microdata` is documented to need `itemtype`; the code takes every outermost `itemscope`.
  `MicrodataDocumentedIff` gives the pages on which this makes no difference, `MicrodataUntypedItem` one on
  which it does.
- An exception in `parse_wave` leaves an audit PENDING, because it is raised outside both try blocks; no
  other ending of a call that is not lost does (`AuditPaysIffCompleted`, `PendingIff`).

## Model

| member | source | states |
|---|---|---|
| Credits.Store.DeductCredit | apps/credits/services/credit_service.py:40-72 | a deduction succeeds iff the amount is positive and covered by an existing row; then it takes the amount off the balance, adds it to the used total and appends its ledger entry, else nothing changes; it keeps the books balanced |
| Credits.Store.AddCredits | apps/credits/services/credit_service.py:75-104 | an addition succeeds iff the amount is positive and the row exists; then it raises the balance (a purchase also the purchased total) and appends its entry, else nothing changes; it keeps the books balanced |
| Credits.Store.CheckBalance | apps/credits/services/credit_service.py:26-37 | the preflight creates a missing row of zeros, changes nothing else, and raises exactly when the balance is below the requirement |
| Credits.Store.FinalizeAudit | apps/audits/services/audit_service.py:61-83 | the atomic block completes the audit row with the totals of the report, stores its issues and charges one credit, or raises and undoes everything; it succeeds iff the balance covers the credit and the inserts succeed |
| Credits.Store.RunAccessibilityAudit | apps/audits/services/audit_service.py:25-97 | the whole audit: it returns iff preflight, call, parser and inserts succeed; then totals, issues, charge and ledger entry are those of the report, else the row tells how it failed and nothing is charged; it keeps the books balanced |
| Credits.AuditAloneResult | apps/audits/services/audit_service.py:35-97 | the same for the audit as a function: rows, charge and exception in every case |
| Credits.AuditPaysIffCompleted | apps/audits/services/audit_service.py:3-9 | an audit adds its one ledger entry iff it completes for an authenticated user; otherwise ledger and totals are untouched; it stays pending iff it passes the preflight, the page is fetched and the parser raises |
| Credits.ReplayKeepsBooks | apps/credits/services/credit_service.py:48-66 | over every serial run: no overdraft, balance = sum of the ledger, every snapshot is the prefix sum at its entry, balance = purchased - used + credits added otherwise |
| Credits.DocumentedIdentity | apps/credits/models/credit_balance.py:16-22 | balance = purchased - used iff no credit was added other than by purchase |
| Credits.DocumentedIdentityFails | apps/credits/services/credit_service.py:88-91 | one refund breaks that identity |
| Credits.ApplyKeepsMatched | apps/audits/services/audit_service.py:61-93 | every committed unit keeps ledger entries and paid completions matched one-to-one, issues with completed audits only |
| Credits.PaidWithinAdded | apps/credits/services/credit_service.py:52-59 | paid completions never exceed the credits ever added |
| AuditProtocol.CommitIsAtomic | apps/audits/services/audit_service.py:61-83 | the buffer built step by step under the lock, published at commit, has exactly the effect of the transaction run alone on the committed state |
| AuditProtocol.Serializable | apps/credits/services/credit_service.py:3-5 | for every interleaving with rollbacks and deaths anywhere, the committed database is the serial replay of the committed operations in commit order |
| AuditProtocol.CommittedExactlyOnce | apps/credits/services/credit_service.py:40-104 | that serial order consists of the callers' own operations: a call that returned committed exactly once, any other never |
| AuditProtocol.LoggedAsAsked | apps/credits/services/credit_service.py:40-104 | each committed transaction is the call as it was made, with its amount, kind or report |
| AuditProtocol.LockHeldToTheEnd | apps/audits/services/audit_service.py:61-83 | from the locking read to the end of the outer transaction one holder has the lock, its snapshot is current and nobody else changes row, ledger or lock |
| AuditProtocol.BooksBalance | apps/credits/services/credit_service.py:48-66 | the books balance in every reachable committed state |
| AuditProtocol.EntriesMatchPaidAudits | apps/audits/services/audit_service.py:35-97 | in every reachable state entries written by audits and paid completions match one-to-one, and the outcome of a call determines its audit row |
| AuditProtocol.ReturnedAuditIsStored | apps/audits/services/audit_service.py:44-97 | in every reachable state a returned audit has stored the totals and issues of its report and its charge, a failed one is FAILED with zeros, and no other has issues |
| AuditProtocol.ReportIsTheReply | apps/audits/services/audit_service.py:48-55 | the report of a call is the one that its HTTP call returned |
| AuditProtocol.PendingIff | apps/audits/services/audit_service.py:44-55 | in every reachable state a finished audit is pending iff the parser raised, or the call was lost after its row was created |
| AuditProtocol.PaidCompletionsBounded | apps/audits/services/audit_service.py:37-39 | however many audits pass the unlocked preflight, paid completions stay within the credits ever added |
| SoloAudit.SoloIsAlone | apps/audits/services/audit_service.py:25-97 | the interleaved steps of one audit, without interference, end as the sequential service: with its database, and returning or raising what it does |
| SoloAudit.SoloUpdateIsAlone | apps/credits/services/credit_service.py:40-104 | a purchase, refund or deduction stepped alone ends as its transaction run alone, or raises with nothing changed |
| JsonLd.FlattenJsonLd | apps/validator/services/extractor_service.py:62-84 | the recursive loops terminate on every JSON value and compute the flattening |
| JsonLd.FlattenAppend | apps/validator/services/extractor_service.py:69-71 | flattening distributes over list concatenation |
| JsonLd.FlattenEmitsNodes | apps/validator/services/extractor_service.py:72-83 | only objects without a list-valued `@graph` come out |
| JsonLd.FlattenIdempotent | apps/validator/services/extractor_service.py:62-84 | flattening a flattened list changes nothing |
| JsonLd.NodePathsExact | apps/validator/services/extractor_service.py:69-76 | the enumeration used below lists exactly the reachable objects, each once, in post-order |
| JsonLd.FlattenIsEmission | apps/validator/services/extractor_service.py:73-83 | one output per reachable plain object and per typed container, none for an untyped container, in order |
| JsonLd.FlattenExact | apps/validator/services/extractor_service.py:69-83 | in terms of the JSON itself: one entry for each path through lists and list-valued `@graph`s to an object that is no container (the object itself) or a container with a true `@type` (its other entries), in post-order |
| JsonLd.FlattenMembers | apps/validator/services/extractor_service.py:69-83 | a value comes out iff some reachable object gives it in that way |
| Json.FalsyValues | apps/validator/services/extractor_service.py:79 | which values are false in Python |
| JsonLd.ExtractJsonLd | apps/validator/services/extractor_service.py:87-105 | the items are the parts of the blocks in order: none for a blank block, one `@parseError` marker for one that does not parse, else the flattened value; every item is a flat object |
| PyText.ShortTypeIdempotent | apps/validator/services/extractor_service.py:39-44 | a short type name is not empty, has no slash or hash, and is its own short name |
| PyText.ShortTypeTakesName | apps/validator/services/extractor_service.py:39-44 | the short type is the name after the last slash or hash of the first word, whatever precedes it and however many slashes follow |
| PyText.SegmentExact | apps/validator/services/extractor_service.py:44 | every text is split like that: front up to a slash or hash, bare segment, trailing slashes |
| PyText.WordsExact | apps/validator/services/extractor_service.py:43 | every text is its words with whitespace around them: all maximal runs, in order |
| PyText.WordsOfSpread | apps/validator/services/extractor_service.py:141 | and words spread out with whitespace are split back into the same words |
| PyText.WhitespaceIs | apps/validator/services/extractor_service.py:43 | the code points that count as whitespace |
| Markup.PropertyBag.Assign | apps/validator/services/extractor_service.py:47-56 | one more value is kept under the name, after those it had; every other name is as before |
| Markup.AssignAllCollects | apps/validator/services/extractor_service.py:47-56 | repeated assignment maps each name to its only value or to the list of its values in order |
| Markup.FindNearestScope | apps/validator/services/extractor_service.py:111-118 | the upward loop finds the nearest scope ancestor |
| Markup.BelowExact | apps/validator/services/extractor_service.py:137 | the scan visits every descendant, each once |
| Markup.BelowInOrder | apps/validator/services/extractor_service.py:137 | and in document order |
| Markup.NearestScopeIsAbove | apps/validator/services/extractor_service.py:162-168 | what it finds is a scope and a proper ancestor (which is why the nested calls terminate) |
| Markup.ParseItem | apps/validator/services/extractor_service.py:130-145 | the nested loops over all descendants, with the dict being filled, compute the filtered scan of the item, for any syntax |
| Markup.ScanIsTree | apps/validator/services/extractor_service.py:130-145 | for every tree and syntax the scan filtered by nearest scope equals a one-pass recursion that stops at nested scopes |
| Markup.ItemCollects | apps/validator/services/extractor_service.py:182-196 | in the resulting dict each name has its single value or the list of its values in document order |
| Capture.Extract | apps/validator/services/extractor_service.py:148-156 | the top-level loop returns the items of the scopes without an enclosing scope |
| Capture.ExtractedIsOutermost | apps/validator/services/extractor_service.py:199-207 | these are exactly the outermost scopes, in document order |
| Capture.Conservation | apps/validator/services/extractor_service.py:130-156 | a named property element is captured iff its nearest scope, and every scope around that up to an outermost one, is a named property; then exactly once, in that item and that top-level item |
| Capture.CapturedIff | apps/validator/services/extractor_service.py:137-144 | the lost elements exactly: an element is captured, in one place, iff it has a name, lies in a scope, and no nested scope around it is without a name |
| Capture.NamedScopesLoseNothing | apps/validator/services/extractor_service.py:137-145 | when nested scopes carry names, a property inside a scope is captured iff it has a name itself |
| Capture.UnnamedScopeIsDropped | apps/validator/services/extractor_service.py:152-154 | a nested scope without a name is dropped with everything inside |
| Contribution.ItemIsItsMembers | apps/validator/services/extractor_service.py:130-145 | a returned dict is its type and the values of exactly the named properties of its scope, in document order |
| Contribution.ItemValues | apps/validator/services/extractor_service.py:130-145 | the whole dict: under each name the values of the named properties that carry it, in document order, under "@type" the short type first |
| Contribution.MembersExact | apps/validator/services/extractor_service.py:137-140 | these members are the named properties whose nearest scope it is, each once |
| Contribution.CapturedIsReturned | apps/validator/services/extractor_service.py:141-145 | what is captured is in the result: a returned dict leads by named properties to the dict of its item, which holds its value under each of its names |
| Contribution.KeptMembersAreCaptured | apps/validator/services/extractor_service.py:137-145 | conversely the dict of a kept item is made of captured properties only |
| Contribution.NamelessPropertyIsLost | apps/validator/services/extractor_service.py:141-144 | a property with an empty name leaves nothing in the result |
| Contribution.TopsExact | apps/validator/services/extractor_service.py:148-156 | the returned items are those of the scopes outside every other scope, each once |
| Contribution.DocumentedIff | apps/validator/services/extractor_service.py:148-156 | the result is the documented one, scopes with a type only, iff every outermost scope has a type |
| Syntaxes.ExtractMicrodata | apps/validator/services/extractor_service.py:148-156 | Microdata: the items of the outermost `itemscope` elements |
| Syntaxes.ExtractRdfa | apps/validator/services/extractor_service.py:199-207 | RDFa: the items of the outermost `typeof` elements |
| Syntaxes.MicrodataCapture | apps/validator/services/extractor_service.py:130-156 | the exact condition for capture in terms of `itemscope` and `itemprop` |
| Syntaxes.RdfaCapture | apps/validator/services/extractor_service.py:182-207 | the same for `typeof` and `property` |
| Syntaxes.MicrodataDict | apps/validator/services/extractor_service.py:130-145 | the whole Microdata dict from `itemtype`, the words of `itemprop` and the values of the elements |
| Syntaxes.RdfaDict | apps/validator/services/extractor_service.py:182-196 | the whole RDFa dict, with shortened property names |
| Syntaxes.MicrodataTypeIs | apps/validator/services/extractor_service.py:133-135 | a type address such as https://schema.org/Product becomes the first "@type", Product |
| Syntaxes.MicrodataValueIs | apps/validator/services/extractor_service.py:121-127 | the value of an element: the attribute its name calls for, else `content`, else its text |
| Syntaxes.RdfaValueIs | apps/validator/services/extractor_service.py:171-179 | `content`, `resource`, `href`, `src`, for `time` also `datetime`, else the text |
| Syntaxes.TextIsDescendants | apps/validator/services/extractor_service.py:127 | the text of an element is that of its descendant text nodes, stripped, in document order |
| Syntaxes.MicrodataDocumentedIff | apps/validator/services/extractor_service.py:148-156 | `extract_microdata` returns what it documents iff no outermost `itemscope` lacks an `itemtype` |
| Syntaxes.MicrodataUntypedItem | apps/validator/services/extractor_service.py:148-156 | a page on which it returns more |
| Syntaxes.RdfaIsDocumented | apps/validator/services/extractor_service.py:199-207 | for RDFa, whose scope attribute names the type, the documented items are always the ones returned |
| SchemaValidator.ValidateSchema | apps/validator/services/schema_validator_service.py:183-280 | the validator's branches and loops give the verdict defined by the rule |
| SchemaReports.VerdictIs | apps/validator/services/schema_validator_service.py:183-280 | the whole verdict: one issue for a parse error, a missing type or a missing rule; otherwise exactly the issues that have an occasion, valid iff required properties are there, values well typed and list entries proper, rich iff also every property needed for that is there |
| SchemaReports.IssuesExact | apps/validator/services/schema_validator_service.py:238-275 | each issue is reported iff its occasion is given, with its severity: missing required and recommended properties, wrong types, list entries, nested fields |
| SchemaReports.IssuesRanked | apps/validator/services/schema_validator_service.py:238-275 | issues come in the order required, recommended, types, list, nested objects |
| SchemaReports.OneReportEach | apps/validator/services/schema_validator_service.py:240-260 | each listing of a missing property gives one report, in rule order |
| SchemaReports.MissingCases | apps/validator/services/schema_validator_service.py:42-53 | when a property is missing: absent, null, blank, empty list or empty object |
| SchemaReports.TypeCases | apps/validator/services/schema_validator_service.py:76-102 | what each type token accepts |
| SchemaReports.UrlCases | apps/validator/services/schema_validator_service.py:56-59 | what looks like an address |
| SchemaReports.TypeTakesName | apps/validator/services/schema_validator_service.py:30-39 | the type of an object is the name after the last slash or hash |
| SchemaReports.TypeOfList | apps/validator/services/schema_validator_service.py:35-36 | of a list of types the first true one counts |
| SchemaReports.TypeIsNone | apps/validator/services/schema_validator_service.py:32-39 | when an object has no type |
| SchemaReports.RuleByName | apps/validator/rules.py:73-83 | a type has the rule of its exact name, else the first whose name differs in case only |
| SchemaReports.NoRule | apps/validator/rules.py:73-83 | else none |
| SchemaValidator.ValidateList | apps/validator/services/schema_validator_service.py:105-154 | the loops over list entries report, entry by entry, wrong shapes and types, missing and nested missing fields |
| SchemaValidator.ValidateObjectRecommended | apps/validator/services/schema_validator_service.py:157-176 | the loops over nested objects report their missing recommended fields |
| SchemaValidator.RuleIssueMembers | apps/validator/services/schema_validator_service.py:238-275 | a rule never emits INFO, reports only properties that are missing, and reports about object fields are warnings |
| SchemaValidator.FillKeepsTheRest | apps/validator/services/schema_validator_service.py:238-275 | filling a missing property leaves every other issue, in the same order |
| SchemaValidator.FillingHelps | apps/validator/services/schema_validator_service.py:183-280 | for every rule table, filling a missing property (not the list property) with a proper value removes exactly its missing reports, adds no error, keeps validity and rich-result eligibility |
| SchemaValidator.FillingTheListIff | apps/validator/services/schema_validator_service.py:105-154 | filling the list property adds no error iff every entry is an object with its required fields, nested ones included; then the result is valid iff nothing else was wrong, and rich-eligible iff also nothing else is missing for that |
| SchemaValidator.FillingTheListCanFail | apps/validator/services/schema_validator_service.py:113-119 | an input on which filling the list property adds an error |
| ValidationService.Tally.IncludeBlock | apps/validator/services/validation_service.py:81-114 | the summary loop keeps totals and capped samples exact |
| ValidationService.QuickSchemaCheck | apps/validator/services/validation_service.py:57-128 | the summary has the exact totals and the first `max_items` schemas and non-INFO issues |
| ValidationService.SummaryTotals | apps/validator/services/validation_service.py:90-122 | each total is the sum over the objects of the page |
| ValidationService.LinesAre | apps/validator/services/validation_service.py:102-112 | the sampled lines are those of the first `max_items` objects, each with its own type, format, validity and counts |
| ValidationService.SampledIssuesAre | apps/validator/services/validation_service.py:113-115 | the sampled issues are the first `max_items` that are not INFO, object by object |
| ValidationService.VerdictFacts | apps/validator/services/schema_validator_service.py:190-280 | every verdict: rich implies valid, valid iff no error, one INFO iff the type has no rule |
| ValidationService.PageTotals | apps/validator/services/validation_service.py:74-128 | rich <= valid <= total, invalid objects <= errors, no error iff all valid, issues = errors + warnings + one INFO per rule-less object |
| ValidationJobs.Batch.IncludeBlock | apps/validator/services/validation_service.py:160-183 | the preparing loop builds the rows and totals of the page |
| ValidationJobs.JobStore.Process | apps/validator/services/validation_service.py:131-215 | one delivery, with its transaction, in-memory job object, partial saves and any fault, has the committed effect `Deliver` |
| ValidationJobs.DeliveryIsAtomic | apps/validator/services/validation_service.py:185-205 | a delivery replaces the whole stored content or none, and all of it exactly when it completes |
| ValidationJobs.DeliveryResult | apps/validator/services/validation_service.py:143-205 | what one delivery leaves in every case: unchanged, started, FAILED with its error, or the page stored |
| ValidationJobs.CompletedIsStored | apps/validator/services/validation_service.py:160-202 | a completed job stores one item per object with its own columns, and under it its issues in order |
| ValidationJobs.AlwaysAgrees | apps/validator/services/validation_service.py:143-205 | at every committed state, across re-runs, rollbacks, failures and deaths, totals and flags agree with the stored items and issues |
| ValidationJobs.RerunLeavesOneRun | apps/validator/services/validation_service.py:134-135 | re-running on the same page, whatever faults follow, leaves the content of one run |
| ValidationJobs.AggregatorsAgree | apps/validator/services/validation_service.py:116-128 | both aggregators compute the same totals over any page, and stored issues are counted by them |
| Gtmetrix.Store.Run | apps/gtmetrix/services/gtmetrix_service.py:44-81 | one run with its partial saves has the effect `Process`; a saved id is kept and not started again |
| Gtmetrix.ProcessResult | apps/gtmetrix/services/gtmetrix_service.py:50-78 | an exception leaves FAILED with that exception and goes on, a completed run the fetched metrics and no error, a failed save what was there |
| Gtmetrix.StartsAccounted | apps/gtmetrix/services/gtmetrix_service.py:53-60 | over any deliveries: successful starts = ids lost before their save + 1 if an id is in the row; a completed report has id and metrics |
| Gtmetrix.TestIdIsWriteOnce | apps/gtmetrix/services/gtmetrix_service.py:57-59 | a persisted id never changes and no test is started afterwards |
| Gtmetrix.StartsAreSpent | apps/gtmetrix/services/gtmetrix_service.py:57-60 | the tests started are those before the first attempt whose id is saved, and that one |
| Gtmetrix.OneCreditIff | apps/gtmetrix/services/gtmetrix_service.py:53-56 | at most one test is started iff none starts before the first attempt whose id is saved, or, when there is no such attempt, at most one starts at all |
| Gtmetrix.SecondStartAfterDeath | apps/gtmetrix/services/gtmetrix_service.py:58-59 | a death between start and save leads to a second start |
| Gtmetrix.DecideIs | apps/gtmetrix/tasks.py:29-86 | API, timeout and network errors are retried three times after 5, 10 and 20 seconds, a client error ends the task, any other crashes it |
| Gtmetrix.LifeIsBounded | apps/gtmetrix/tasks.py:43-86 | at most 4 attempts besides redeliveries, delays a prefix of 5, 10, 20, a client error ends the task at that attempt |
| Gtmetrix.PollAndFetch | apps/gtmetrix/services/gtmetrix_client.py:122-153 | at least one poll, at most ceil(budget / d) + 1 when a round takes at least d, the report is fetched iff the last poll saw `completed`, timeout only past the deadline |
| Gtmetrix.PollBoundIs | apps/gtmetrix/services/gtmetrix_client.py:135-148 | the bound is exact: n polls are within it iff n - 2 rounds end before the budget |
| LinkChecker.CheckSingleLink | apps/linkchecker/services.py:198-250 | for every server the bounded loop equals the recursive follower with 11 units of fuel, with at most 11 HEAD and 11 GET requests, and raises iff some redirect chain breaks |
| LinkChecker.OutcomeIs | apps/linkchecker/services.py:186-250 | the outcome from the answers alone: TIMEOUT, caught and uncaught failures, and for an answer its status, BROKEN iff 400-599, REDIRECT iff a hop was followed otherwise, HEALTHY iff 200-299 without one, else ERROR |
| LinkChecker.UncaughtIff | apps/linkchecker/services.py:198-250 | it raises iff a chain of at most 11 addresses ends in an exception that is not caught or in a redirect whose location cannot be resolved |
| LinkChecker.UnresolvableRedirect | apps/linkchecker/services.py:219-225 | a server under which it raises |
| LinkChecker.FollowIsChain | apps/linkchecker/services.py:213-225 | a landed walk is a chain of redirects from the start, its status is the last answer's, and it stops at the first non-redirect or when the fuel is used up |
| LinkChecker.RedirectReported | apps/linkchecker/services.py:186-195 | REDIRECT iff a hop was followed and the last status is not 400-599; the redirect address is the last resolved location |
| LinkChecker.ExtractLinks | apps/linkchecker/services.py:138-180 | every http(s) destination once, at its first occurrence, in order, none missing; raises iff some address cannot be resolved |
| LinkChecker.CandidacyIs | apps/linkchecker/services.py:150-178 | the link of a candidate: skipped prefixes, scheme filter, dropped fragment, anchor text cut at 500, internal iff the host is that of the page or below it |
| LinkRollup.OrderFacts | apps/linkchecker/tasks.py:57-63 | a completion order visits each submitted check exactly once |
| LinkRollup.OrderDoesNotMatter | apps/linkchecker/tasks.py:62-82 | any two completion orders give the same rows up to order and the same counts |
| LinkRollup.RowsRecord | apps/linkchecker/tasks.py:62-73 | each row holds the status, category and redirect address of its check |
| LinkRollup.TallyIsOfChecks | apps/linkchecker/tasks.py:82-92 | each category count is the number of checks that came out so |
| LinkRollup.BriefCounts | apps/linkchecker/services.py:264-282 | the same in the quick check |
| LinkRollup.SliceIs | apps/linkchecker/tasks.py:49 | how many links the limit leaves |
| LinkRollup.CrawlStore.Collect | apps/linkchecker/tasks.py:55-77 | the collecting loop stores one row per check, publishes 50, 100 and so on, never more than the number found; it fails iff a check raised |
| LinkRollup.FirstLinksAreDistinct | apps/linkchecker/services.py:148-180 | extracted links have distinct targets, and so has every slice of them |
| LinkRollup.CrawlStore.RunLinkCheck | apps/linkchecker/tasks.py:30-105 | from the page to the stored job: a completed delivery adds a permutation of the extracted links' rows, with distinct targets, each recording its check, checked = found <= max_links, the counts are those of the checks and sum up; otherwise the job is failed |
| LinkRollup.QuickLinkCheck | apps/linkchecker/services.py:253-283 | the five counts are exact and sum to the total; the sample is the first 15 broken links in completion order |
| LinkRollup.BrokenSample | apps/linkchecker/services.py:270-273 | that sample has min(15, broken) entries, all broken |
| AnalysisHistory.History.UpsertHistory | apps/analysis/services/analysis_service.py:63-78 | the key's row has one more count and the new time, every other key its old row, and the user's cache entry is gone |
| AnalysisHistory.History.ProcessAnalysis | apps/analysis/services/analysis_service.py:81-113 | only a fetched page of a signed-in user reaches the upsert; otherwise rows and cache stay |
| AnalysisHistory.History.GetAnalysisHistory | apps/analysis/selectors/analysis_selectors.py:46-61 | answers from the cache or fills it; the answer is the current listing when the cache is coherent |
| AnalysisHistory.ListingIsComplete | apps/analysis/selectors/analysis_selectors.py:57-59 | the listing holds exactly the table's rows of that user, as often as there, newest first |
| AnalysisHistory.CacheIsCoherent | apps/analysis/services/analysis_service.py:78 | in every run, with expiry anywhere, a cached listing is the current one |
| AnalysisHistory.OneRowPerUrl | apps/analysis/services/analysis_service.py:63-77 | in every run one row per (user, url), its count the runs that reached the upsert, its timestamp the last of them |
| PdfBuilder.OverallScore | apps/full_report/services/pdf_builder.py:417-429 | the rounded mean of the votes; none iff no tool scores; between the least and greatest vote |
| PdfBuilder.OverallIs | apps/full_report/services/pdf_builder.py:417-429 | the overall score is the rounded mean of the six votes that are there |
| PdfBuilder.VotesAre | apps/full_report/services/pdf_builder.py:407-425 | which score each tool votes with |
| PdfBuilder.RoundIs | apps/full_report/services/pdf_builder.py:351-355 | rounding to the nearest integer, ties to even |
| PdfBuilder.PageSpeedIs | apps/full_report/services/pdf_builder.py:358-362 | the mean of the category scores that are there |
| PdfBuilder.GtmetrixIs | apps/full_report/services/pdf_builder.py:365-366 | the same for GTmetrix |
| PdfBuilder.AccessibilityIs | apps/full_report/services/pdf_builder.py:369-373 | three points off for an error, two for a contrast error, not below 0 |
| PdfBuilder.SslIs | apps/full_report/services/pdf_builder.py:376-387 | the points of each grade, at most 40 when untrusted or vulnerable |
| PdfBuilder.LinksIs | apps/full_report/services/pdf_builder.py:390-394 | the rounded percentage of links that are not broken, none without links |
| PdfBuilder.StructuredIs | apps/full_report/services/pdf_builder.py:397-402 | the rounded percentage of valid objects with five points off for an error, cut to 0..100 |
| PdfBuilder.OverallPercent | apps/full_report/services/pdf_builder.py:348-429 | with inputs in 0..100 the overall score is in 0..100 |
| PdfBuilder.WorseNeverRaises | apps/full_report/services/pdf_builder.py:369-404 | more accessibility errors, broken links or schema errors never raise the overall score |
| PdfBuilder.MetricTable | apps/full_report/services/pdf_builder.py:187-222 | the row index equals the rows added; the background commands tile the rows, alternate, and cover an entry row and, exactly for entries with a note, its note row |
| PdfBuilder.SpansAreNotes | apps/full_report/services/pdf_builder.py:206-208 | the merged rows are exactly the note rows |

## Left out

- Other users' balance rows: a row lock and a ledger filter separate users completely, so one user's row (with the anonymous audits) is modelled.
- A commit whose acknowledgement is lost, which the caller could take for a rollback; a commit either happens or raises.
- The description texts of ledger entries; the model records instead which audit wrote an entry.
- Issue messages and suggestions, error texts, logging; an issue is its severity, the place it points at and the kind of problem.
- Concurrent deliveries of one validation, crawl or GTmetrix job: the code takes no lock there, so deliveries are handled one at a time.
- The branches for a job or report row that no longer exists, which return "missing" and write nothing.
- HTTP clients, HTML parsing, robots rules, headless rendering and URL resolution, which are inputs.
- Python floats: scores use exact rational means, clocks are real numbers, NaN is not a JSON number.
- Timing columns (durations, response times), error details of a link check, and GTmetrix metric parsing.
- Ties in the age order of history rows: the database may return them in any order, the model keeps table order.
- `get_audit_summary`, history filters, SSL grading, WCAG levels and the remaining PDF layout: finite tables or presentation.
- Users, tokens, throttling and URL safety checks.
