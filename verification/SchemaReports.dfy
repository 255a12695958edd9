/** What a verdict says, in terms of the object and the rule: which issues are reported and when the object is
    valid and rich-result eligible. */
module SchemaReports {
  import opened Prelude
  import opened Json
  import opened PyText
  import opened SchemaValidator

  // ----------------------------------------------------------------------------- missing and typed

  /** A property is missing when it is absent, null, a blank string, an empty list or an empty object. */
  lemma MissingCases(d: Dict, p: string)
    ensures IsMissing(d, p) <==>
            || p !in d || d[p] == Null || d[p] == Arr([]) || d[p] == Obj(map[])
            || (d[p].Str? && forall c :: c in d[p].s ==> IsSpace(c))
  {
    if p in d && d[p].Str? {
      var lead, trail := StripExact(d[p].s);
      if AllSpaces(d[p].s) {
        BlankStrips(d[p].s);
      }
    }
  }

  /** A string that starts, blanks and case aside, like an address. */
  lemma UrlCases(lx: Lexer, x: Json)
    ensures LooksLikeUrl(lx, x) <==>
            x.Str? && exists start :: start in ["http://", "https://", "//", "/"] && start <= lx.lower(Strip(x.s))
  {
    var starts := ["http://", "https://", "//", "/"];
    assert starts[0] == "http://" && starts[1] == "https://" && starts[2] == "//" && starts[3] == "/";
    assert starts[0] in starts && starts[1] in starts && starts[2] in starts && starts[3] in starts;
    if x.Str? && exists start :: start in starts && start <= lx.lower(Strip(x.s)) {
      var k :| 0 <= k < |starts| && starts[k] <= lx.lower(Strip(x.s));
      assert k == 0 || k == 1 || k == 2 || k == 3;
    }
  }

  /** What each type token accepts. */
  lemma TypeCases(lx: Lexer, x: Json)
    ensures TypeOk(lx, x, AnyText) <==> x.Str? || (x.Arr? && forall v :: v in x.items ==> v.Str?)
    ensures TypeOk(lx, x, Url) <==> LooksLikeUrl(lx, x)
    ensures TypeOk(lx, x, Number) <==> x.Num? || (x.Str? && lx.isFloat(Filter(x.s, NotComma)))
    ensures TypeOk(lx, x, Date) <==> TypeOk(lx, x, DateTime)
    ensures TypeOk(lx, x, DateTime) <==> x.Str? && StartsWithDate(lx, Strip(x.s))
    ensures TypeOk(lx, x, Image) <==>
            LooksLikeUrl(lx, x) || x.Obj? || (x.Arr? && forall v :: v in x.items ==> LooksLikeUrl(lx, v) || v.Obj?)
    ensures TypeOk(lx, x, Object) <==> x.Obj? || (x.Arr? && forall v :: v in x.items ==> v.Obj?)
    ensures TypeOk(lx, x, Array) <==> x.Arr?
    ensures TypeOk(lx, x, TextOrObject) <==> x.Str? || x.Obj? || x.Arr?
    ensures forall token :: TypeOk(lx, x, Unrecognised(token))
  {
    if x.Str? {
      CommasGone(x.s);
    }
  }

  predicate NotComma(c: char) { c != ',' }

  lemma {:induction false} CommasGone(s: string)
    ensures WithoutCommas(s) == Filter(s, NotComma)
  {
    if s != "" {
      CommasGone(s[1..]);
      FilterFront(s, NotComma);
    }
  }

  /** "dddd-dd-dd" and then anything. */
  ghost predicate StartsWithDate(lx: Lexer, s: string)
  {
    |s| >= 10 && forall k :: 0 <= k < 10 ==> if k == 4 || k == 7 then s[k] == '-' else lx.isDigit(s[k])
  }

  // ------------------------------------------------------------------------------ types and rules

  /** The type of an object with "@type" `v`: blanks around it and slashes after it do not matter. */
  lemma TypeTakesName(d: Dict, lead: string, prefix: string, name: string, slashes: string, trail: string)
    requires "@parseError" !in d && "@type" in d && d["@type"] == Str(lead + prefix + name + slashes + trail)
    requires AllSpaces(lead) && AllSpaces(trail) && NameAfter(prefix, name, slashes) && (prefix != "" ==> !IsSpace(prefix[0]))
    ensures ResolveType(d) == Some(name)
  {
    var w := prefix + name + slashes;
    assert name[0] in name && name[|name| - 1] in name;
    assert w[0] == if prefix != "" then prefix[0] else name[0];
    assert w[|w| - 1] == if slashes != "" then slashes[|slashes| - 1] else name[|name| - 1];
    assert slashes != "" ==> slashes[|slashes| - 1] in slashes;
    assert lead + prefix + name + slashes + trail == lead + w + trail;
    StripOf(lead, w, trail);
    SegmentTakesName(prefix, name, slashes);
  }

  /** Of a list of types the first true one counts. */
  lemma TypeOfList(d: Dict, items: seq<Json>, k: nat)
    requires "@parseError" !in d && "@type" in d && d["@type"] == Arr(items)
    requires k < |items| && Truthy(items[k]) && forall j :: 0 <= j < k ==> !Truthy(items[j])
    ensures ResolveType(d) == if items[k].Str? then ResolveType(d["@type" := items[k]]) else None
  {
    FirstTruthyIs(items, k);
  }

  lemma {:induction false} FirstTruthyIs(items: seq<Json>, k: nat)
    requires k < |items| && Truthy(items[k]) && forall j :: 0 <= j < k ==> !Truthy(items[j])
    ensures FirstTruthy(items) == items[k]
  {
    if k > 0 {
      assert !Truthy(items[0]);
      FirstTruthyIs(items[1..], k - 1);
    }
  }

  /** There is no type after a parse error, without "@type", when it is neither text nor a list, when it is
      blank, and when nothing in the list is true. */
  lemma TypeIsNone(d: Dict)
    requires
      || "@parseError" in d || "@type" !in d
      || (!d["@type"].Str? && !d["@type"].Arr?)
      || (d["@type"].Str? && AllSpaces(d["@type"].s))
      || (d["@type"].Arr? && forall x :: x in d["@type"].items ==> !Truthy(x))
    ensures ResolveType(d) == None
  {
    if "@parseError" !in d && "@type" in d {
      if d["@type"].Str? {
        BlankStrips(d["@type"].s);
      } else if d["@type"].Arr? {
        NoneTruthy(d["@type"].items);
      }
    }
  }

  lemma {:induction false} NoneTruthy(items: seq<Json>)
    requires forall x :: x in items ==> !Truthy(x)
    ensures FirstTruthy(items) == Null
  {
    if items != [] {
      assert items[0] in items;
      NoneTruthy(items[1..]);
    }
  }

  /** The first rule registered under exactly this name. */
  lemma {:induction false} ExactRuleIs(rules: Rules, name: string, k: nat)
    requires k < |rules| && rules[k].0 == name && forall j :: 0 <= j < k ==> rules[j].0 != name
    ensures ExactRule(rules, name) == Some(rules[k].1)
  {
    if k > 0 {
      ExactRuleIs(rules[1..], name, k - 1);
    }
  }

  lemma {:induction false} NoExactRule(rules: Rules, name: string)
    requires forall j :: 0 <= j < |rules| ==> rules[j].0 != name
    ensures ExactRule(rules, name) == None
  {
    if rules != [] {
      NoExactRule(rules[1..], name);
    }
  }

  lemma {:induction false} FoldedRuleIs(lx: Lexer, rules: Rules, lowered: string, k: nat)
    requires k < |rules| && lx.lower(rules[k].0) == lowered && forall j :: 0 <= j < k ==> lx.lower(rules[j].0) != lowered
    ensures FoldedRule(lx, rules, lowered) == Some(rules[k].1)
  {
    if k > 0 {
      FoldedRuleIs(lx, rules[1..], lowered, k - 1);
    }
  }

  lemma {:induction false} NoFoldedRule(lx: Lexer, rules: Rules, lowered: string)
    requires forall j :: 0 <= j < |rules| ==> lx.lower(rules[j].0) != lowered
    ensures FoldedRule(lx, rules, lowered) == None
  {
    if rules != [] {
      NoFoldedRule(lx, rules[1..], lowered);
    }
  }

  /** A type has the rule of its exact name; without one, the first rule whose name differs in case only. */
  lemma RuleByName(lx: Lexer, rules: Rules, name: string, k: nat)
    requires name != "" && k < |rules|
    requires
      || (rules[k].0 == name && forall j :: 0 <= j < k ==> rules[j].0 != name)
      || ((forall j :: 0 <= j < |rules| ==> rules[j].0 != name)
          && lx.lower(rules[k].0) == lx.lower(name) && forall j :: 0 <= j < k ==> lx.lower(rules[j].0) != lx.lower(name))
    ensures GetRule(lx, rules, name) == Some(rules[k].1)
  {
    if rules[k].0 == name {
      ExactRuleIs(rules, name, k);
    } else {
      NoExactRule(rules, name);
      FoldedRuleIs(lx, rules, lx.lower(name), k);
    }
  }

  lemma NoRule(lx: Lexer, rules: Rules, name: string)
    requires name == "" || forall j :: 0 <= j < |rules| ==> rules[j].0 != name && lx.lower(rules[j].0) != lx.lower(name)
    ensures GetRule(lx, rules, name) == None
  {
    if name != "" {
      NoExactRule(rules, name);
      NoFoldedRule(lx, rules, lx.lower(name));
    }
  }

  // --------------------------------------------------------------------------- which issues there are

  /** The entries of the rule's list, if the object has that list. */
  function ListEntries(rule: SchemaRule, d: Dict): seq<Json>
  {
    if rule.listProperty.Some? && rule.listProperty.value != "" && Get(d, rule.listProperty.value).Arr?
    then Get(d, rule.listProperty.value).items else []
  }

  /** Entry `k` of the list named `list` is this object. */
  ghost predicate IsEntry(rule: SchemaRule, d: Dict, list: string, k: nat, entry: Dict)
  {
    rule.listProperty == Some(list) && k < |ListEntries(rule, d)| && ListEntries(rule, d)[k] == Obj(entry)
  }

  ghost predicate Wants(table: seq<(string, seq<string>)>, parent: string, sub: string)
  {
    exists j :: 0 <= j < |table| && table[j].0 == parent && sub in table[j].1
  }

  ghost predicate Mistyped(lx: Lexer, rule: SchemaRule, d: Dict, p: string)
  {
    p in d && exists j :: 0 <= j < |rule.propertyTypes| && rule.propertyTypes[j].0 == p && !TypeOk(lx, d[p], rule.propertyTypes[j].1)
  }

  ghost predicate LacksSub(candidates: seq<Json>, sub: string)
  {
    exists c :: c in candidates && c.Obj? && IsMissing(c.fields, sub)
  }

  /** The occasion of each issue, with its severity. */
  ghost predicate Reported(lx: Lexer, rule: SchemaRule, d: Dict, i: Issue)
  {
    match i
    case Issue(Error, Prop(p), MissingRequired) => p in rule.required && IsMissing(d, p)
    case Issue(Warning, Prop(p), MissingRecommended) => p in rule.recommended && IsMissing(d, p)
    case Issue(Error, Prop(p), WrongType) => !IsMissing(d, p) && Mistyped(lx, rule, d, p)
    case Issue(Error, Entry(list, k), NotAnObject) =>
      rule.listProperty == Some(list) && k < |ListEntries(rule, d)| && !ListEntries(rule, d)[k].Obj?
    case Issue(Warning, EntryType(list, k), WrongItemType) => exists e :: IsEntry(rule, d, list, k, e) && WrongEntryType(rule, e)
    case Issue(Error, EntrySub(list, k, p), MissingInEntry) =>
      exists e :: IsEntry(rule, d, list, k, e) && p in rule.listItemRequired && IsMissing(e, p)
    case Issue(Error, EntryNested(list, k, parent, sub), MissingInNested) =>
      exists e :: IsEntry(rule, d, list, k, e) && LacksNested(rule, e, parent, sub)
    case Issue(Warning, Sub(parent, sub), MissingInObject) =>
      Wants(rule.objectRecommended, parent, sub) && parent in d
      && (LacksSub([d[parent]], sub) || (d[parent].Arr? && LacksSub(d[parent].items, sub)))
    case _ => false
  }

  predicate WrongEntryType(rule: SchemaRule, e: Dict)
  {
    rule.listItemType.Some? && rule.listItemType.value != "" && ResolveType(e).Some? && ResolveType(e).value != ""
    && ResolveType(e).value != rule.listItemType.value
  }

  ghost predicate LacksNested(rule: SchemaRule, e: Dict, parent: string, sub: string)
  {
    Wants(rule.listItemNested, parent, sub) && parent in e && e[parent].Obj? && IsMissing(e[parent].fields, sub)
  }

  lemma {:induction false} MissingInExact(d: Dict, props: seq<string>, make: string -> Issue, i: Issue)
    ensures i in MissingIn(d, props, make) <==> exists p :: p in props && IsMissing(d, p) && i == make(p)
  {
    if props != [] {
      MissingInExact(d, props[..|props| - 1], make, i);
      SplitLast(props);
    }
  }

  lemma {:induction false} TypeIssuesExact(lx: Lexer, types: seq<(string, Expected)>, d: Dict, i: Issue)
    ensures i in TypeIssues(lx, types, d) <==>
            exists j :: 0 <= j < |types| && !IsMissing(d, types[j].0) && !TypeOk(lx, d[types[j].0], types[j].1)
                        && i == Issue(Error, Prop(types[j].0), WrongType)
  {
    if types != [] {
      TypeIssuesExact(lx, types[..|types| - 1], d, i);
      assert forall j :: 0 <= j < |types| - 1 ==> types[..|types| - 1][j] == types[j];
    }
  }

  lemma {:induction false} NestedExact(nested: seq<(string, seq<string>)>, list: string, k: nat, e: Dict, i: Issue)
    ensures i in NestedIssues(nested, list, k, e) <==>
            i.severity == Error && i.problem == MissingInNested && i.field.EntryNested? && i.field.list == list && i.field.index == k
            && Wants(nested, i.field.parent, i.field.sub) && i.field.parent in e && e[i.field.parent].Obj?
            && IsMissing(e[i.field.parent].fields, i.field.sub)
  {
    if nested != [] {
      var rest, n := nested[..|nested| - 1], |nested| - 1;
      var (parent, subs) := nested[n];
      NestedExact(rest, list, k, e, i);
      assert forall j :: 0 <= j < n ==> rest[j] == nested[j];
      if i.field.EntryNested? {
        assert Wants(nested, i.field.parent, i.field.sub)
               <==> Wants(rest, i.field.parent, i.field.sub) || (parent == i.field.parent && i.field.sub in subs);
      }
      if Get(e, parent).Obj? {
        MissingInExact(Get(e, parent).fields, subs, OnNested(list, k, parent), i);
      }
    }
  }

  /** The issues of one list entry. */
  ghost predicate EntryReported(rule: SchemaRule, list: string, k: nat, entry: Json, i: Issue)
  {
    match i
    case Issue(Error, Entry(l, j), NotAnObject) => l == list && j == k && !entry.Obj?
    case Issue(Warning, EntryType(l, j), WrongItemType) => l == list && j == k && entry.Obj? && WrongEntryType(rule, entry.fields)
    case Issue(Error, EntrySub(l, j, p), MissingInEntry) =>
      l == list && j == k && entry.Obj? && p in rule.listItemRequired && IsMissing(entry.fields, p)
    case Issue(Error, EntryNested(l, j, parent, sub), MissingInNested) =>
      l == list && j == k && entry.Obj? && LacksNested(rule, entry.fields, parent, sub)
    case _ => false
  }

  lemma EntryExact(rule: SchemaRule, list: string, k: nat, entry: Json, i: Issue)
    ensures i in EntryIssues(rule, list, k, entry) <==> EntryReported(rule, list, k, entry, i)
  {
    if entry.Obj? {
      MissingInExact(entry.fields, rule.listItemRequired, OnEntry(list, k), i);
      NestedExact(rule.listItemNested, list, k, entry.fields, i);
    }
  }

  lemma {:induction false} EntriesExact(rule: SchemaRule, list: string, items: seq<Json>, i: Issue)
    ensures i in EntriesIssues(rule, list, items) <==>
            exists k :: 0 <= k < |items| && EntryReported(rule, list, k, items[k], i)
  {
    if items != [] {
      var n := |items| - 1;
      EntriesExact(rule, list, items[..n], i);
      EntryExact(rule, list, n, items[n], i);
      assert forall k :: 0 <= k < n ==> items[..n][k] == items[k];
    }
  }

  lemma {:induction false} CandidatesExact(cs: seq<Json>, parent: string, subs: seq<string>, i: Issue)
    ensures i in CandidateIssues(cs, parent, subs) <==>
            i.severity == Warning && i.problem == MissingInObject && i.field.Sub? && i.field.parent == parent
            && i.field.sub in subs && LacksSub(cs, i.field.sub)
  {
    if cs != [] {
      var rest, c := cs[..|cs| - 1], cs[|cs| - 1];
      CandidatesExact(rest, parent, subs, i);
      SplitLast(cs);
      if i.field.Sub? {
        assert LacksSub(cs, i.field.sub) <==> LacksSub(rest, i.field.sub) || (c.Obj? && IsMissing(c.fields, i.field.sub));
      }
      if c.Obj? {
        MissingInExact(c.fields, subs, OnObject(parent), i);
      }
    }
  }

  lemma {:induction false} ObjectsExact(table: seq<(string, seq<string>)>, d: Dict, i: Issue)
    ensures i in ObjectIssues(table, d) <==>
            i.severity == Warning && i.problem == MissingInObject && i.field.Sub?
            && Wants(table, i.field.parent, i.field.sub) && LacksSub(Candidates(Get(d, i.field.parent)), i.field.sub)
  {
    if table != [] {
      var rest, n := table[..|table| - 1], |table| - 1;
      var (parent, subs) := table[n];
      ObjectsExact(rest, d, i);
      assert forall j :: 0 <= j < n ==> rest[j] == table[j];
      if i.field.Sub? {
        assert Wants(table, i.field.parent, i.field.sub)
               <==> Wants(rest, i.field.parent, i.field.sub) || (parent == i.field.parent && i.field.sub in subs);
      }
      CandidatesExact(Candidates(Get(d, parent)), parent, subs, i);
    }
  }

  /** An issue is reported if and only if it has its occasion: no report is missing, none is made up, and each
      has its severity. */
  lemma IssuesExact(lx: Lexer, rule: SchemaRule, d: Dict, i: Issue)
    ensures i in RuleIssues(lx, rule, d) <==> Reported(lx, rule, d, i)
  {
    PropertyReports(lx, rule, d, i);
    ListReports(rule, d, i);
    ObjectsExact(rule.objectRecommended, d, i);
    InFive(MissingIn(d, rule.required, OnRequired()), MissingIn(d, rule.recommended, OnRecommended()),
           TypeIssues(lx, rule.propertyTypes, d), ListIssues(rule, d), ObjectIssues(rule.objectRecommended, d), i);
    if AboutList(i.problem) {
      ListOccasions(lx, rule, d, i);
    } else if i.problem == MissingInObject {
      if i.field.Sub? {
        CandidatesAre(d, i.field.parent, i.field.sub);
      }
      assert Reported(lx, rule, d, i) <==> i in ObjectIssues(rule.objectRecommended, d);
    } else if !AboutProperty(i.problem) {
      assert !Reported(lx, rule, d, i);
    }
  }

  /** A property's own object, or the objects of its list. */
  lemma CandidatesAre(d: Dict, parent: string, sub: string)
    ensures LacksSub(Candidates(Get(d, parent)), sub)
            <==> parent in d && (LacksSub([d[parent]], sub) || (d[parent].Arr? && LacksSub(d[parent].items, sub)))
  {
  }

  lemma InFive<T>(a: seq<T>, b: seq<T>, c: seq<T>, d: seq<T>, e: seq<T>, x: T)
    ensures x in a + b + c + d + e <==> x in a || x in b || x in c || x in d || x in e
  {
  }

  /** The occasions about the list, entry by entry. */
  lemma ListOccasions(lx: Lexer, rule: SchemaRule, d: Dict, i: Issue)
    requires AboutList(i.problem)
    ensures Reported(lx, rule, d, i)
            <==> rule.listProperty.Some?
                 && exists k :: 0 <= k < |ListEntries(rule, d)| && EntryReported(rule, rule.listProperty.value, k, ListEntries(rule, d)[k], i)
  {
    var entries := ListEntries(rule, d);
    if Reported(lx, rule, d, i) {
      var k := i.field.index;
      assert EntryReported(rule, rule.listProperty.value, k, entries[k], i);
    }
    if rule.listProperty.Some? {
      var list := rule.listProperty.value;
      if k :| 0 <= k < |entries| && EntryReported(rule, list, k, entries[k], i) {
        if entries[k].Obj? {
          assert IsEntry(rule, d, list, k, entries[k].fields);
        }
      }
    }
  }

  predicate AboutProperty(p: Problem) { p.MissingRequired? || p.MissingRecommended? || p.WrongType? }
  predicate AboutList(p: Problem) { p.NotAnObject? || p.WrongItemType? || p.MissingInEntry? || p.MissingInNested? }

  lemma PropertyReports(lx: Lexer, rule: SchemaRule, d: Dict, i: Issue)
    ensures i in MissingIn(d, rule.required, OnRequired()) || i in MissingIn(d, rule.recommended, OnRecommended())
            || i in TypeIssues(lx, rule.propertyTypes, d)
            <==> AboutProperty(i.problem) && Reported(lx, rule, d, i)
  {
    MissingInExact(d, rule.required, OnRequired(), i);
    MissingInExact(d, rule.recommended, OnRecommended(), i);
    TypeIssuesExact(lx, rule.propertyTypes, d, i);
  }

  lemma ListReports(rule: SchemaRule, d: Dict, i: Issue)
    ensures i in ListIssues(rule, d)
            <==> AboutList(i.problem) && rule.listProperty.Some?
                 && exists k :: 0 <= k < |ListEntries(rule, d)| && EntryReported(rule, rule.listProperty.value, k, ListEntries(rule, d)[k], i)
  {
    if rule.listProperty.Some? {
      EntriesExact(rule, rule.listProperty.value, ListEntries(rule, d), i);
    }
  }

  // --------------------------------------------------------------------------------- the verdict

  /** When the object satisfies its rule. */
  ghost predicate Satisfies(lx: Lexer, rule: SchemaRule, d: Dict)
  {
    && (forall p :: p in rule.required ==> !IsMissing(d, p))
    && (forall j :: 0 <= j < |rule.propertyTypes| && !IsMissing(d, rule.propertyTypes[j].0) ==>
          TypeOk(lx, d[rule.propertyTypes[j].0], rule.propertyTypes[j].1))
    && (forall k :: 0 <= k < |ListEntries(rule, d)| ==> ProperEntry(rule, ListEntries(rule, d)[k]))
  }

  lemma NoErrorIff(lx: Lexer, rule: SchemaRule, d: Dict)
    ensures NoError(RuleIssues(lx, rule, d)) <==> Satisfies(lx, rule, d)
  {
    var issues := RuleIssues(lx, rule, d);
    var list := if rule.listProperty.Some? then rule.listProperty.value else "";
    var entries := ListEntries(rule, d);
    forall i ensures i in issues <==> Reported(lx, rule, d, i) {
      IssuesExact(lx, rule, d, i);
    }
    EntriesErrors(rule, list, entries);
    InnerErrors(lx, rule, d, issues);
    if NoError(issues) {
      forall p | p in rule.required ensures !IsMissing(d, p) {
        assert Reported(lx, rule, d, Issue(Error, Prop(p), MissingRequired))
               <==> IsMissing(d, p);
      }
      forall j | 0 <= j < |rule.propertyTypes| && !IsMissing(d, rule.propertyTypes[j].0)
        ensures TypeOk(lx, d[rule.propertyTypes[j].0], rule.propertyTypes[j].1)
      {
        var p := rule.propertyTypes[j].0;
        assert !TypeOk(lx, d[p], rule.propertyTypes[j].1) ==> Reported(lx, rule, d, Issue(Error, Prop(p), WrongType));
      }
    }
  }

  /** The errors about the list are those of its entries. */
  lemma InnerErrors(lx: Lexer, rule: SchemaRule, d: Dict, issues: seq<Issue>)
    requires forall i :: i in issues <==> Reported(lx, rule, d, i)
    ensures var list := if rule.listProperty.Some? then rule.listProperty.value else "";
            NoError(EntriesIssues(rule, list, ListEntries(rule, d)))
            <==> forall i :: i in issues && AboutList(i.problem) ==> !IsError(i)
  {
    var list := if rule.listProperty.Some? then rule.listProperty.value else "";
    forall i ensures i in EntriesIssues(rule, list, ListEntries(rule, d)) <==> i in issues && AboutList(i.problem) {
      EntriesExact(rule, list, ListEntries(rule, d), i);
      if AboutList(i.problem) {
        ListOccasions(lx, rule, d, i);
      }
    }
  }

  /** The whole verdict: a parse error, a missing type and a missing rule give one issue each; otherwise the
      issues are those with an occasion, the object is valid when it satisfies its rule, and rich-result
      eligible when it also has every property needed for that. */
  lemma VerdictIs(lx: Lexer, rules: Rules, schemaType: Option<string>, d: Dict)
    ensures var v := Validate(lx, rules, schemaType, d);
            if "@parseError" in d then v == Verdict("Unknown", false, false, [Issue(Error, TypeField, BadSyntax)])
            else if schemaType.None? || schemaType.value == "" then
              v == Verdict("Unknown", false, false, [Issue(Error, TypeField, NoType)])
            else
              match GetRule(lx, rules, schemaType.value)
              case None => v == Verdict(schemaType.value, true, false, [Issue(Info, TypeField, NoRules)])
              case Some(rule) =>
                && v.schemaType == schemaType.value
                && (forall i :: i in v.issues <==> Reported(lx, rule, d, i))
                && (v.isValid <==> Satisfies(lx, rule, d))
                && (v.rich <==> Satisfies(lx, rule, d) && forall p :: p in rule.richRequired ==> !IsMissing(d, p))
  {
    if "@parseError" !in d && schemaType.Some? && schemaType.value != "" && GetRule(lx, rules, schemaType.value).Some? {
      var rule := GetRule(lx, rules, schemaType.value).value;
      RuledVerdict(lx, rules, schemaType.value, d);
      NoErrorIff(lx, rule, d);
      forall i ensures i in RuleIssues(lx, rule, d) <==> Reported(lx, rule, d, i) {
        IssuesExact(lx, rule, d, i);
      }
    }
  }

  // ---------------------------------------------------------------------------- order and number

  /** Required before recommended, then types, then the list, then nested objects. */
  function Rank(p: Problem): nat
  {
    if p.MissingRequired? then 0 else if p.MissingRecommended? then 1 else if p.WrongType? then 2
    else if AboutList(p) then 3 else 4
  }

  ghost predicate Ranked(issues: seq<Issue>)
  {
    forall i, j :: 0 <= i < j < |issues| ==> Rank(issues[i].problem) <= Rank(issues[j].problem)
  }

  lemma RankedJoin(a: seq<Issue>, b: seq<Issue>, r: nat)
    requires Ranked(a) && (forall i :: i in a ==> Rank(i.problem) <= r) && forall i :: i in b ==> Rank(i.problem) == r
    ensures Ranked(a + b) && forall i :: i in a + b ==> Rank(i.problem) <= r
  {
    forall i, j | 0 <= i < j < |a + b| ensures Rank((a + b)[i].problem) <= Rank((a + b)[j].problem) {
      if i < |a| {
        assert a[i] in a;
        if j >= |a| {
          assert b[j - |a|] in b;
        }
      } else {
        assert b[i - |a|] in b && b[j - |a|] in b;
      }
    }
  }

  /** The issues come in this order. */
  lemma IssuesRanked(lx: Lexer, rule: SchemaRule, d: Dict)
    ensures Ranked(RuleIssues(lx, rule, d))
  {
    var a, b := MissingIn(d, rule.required, OnRequired()), MissingIn(d, rule.recommended, OnRecommended());
    var c, l, o := TypeIssues(lx, rule.propertyTypes, d), ListIssues(rule, d), ObjectIssues(rule.objectRecommended, d);
    PartRanks(lx, rule, d);
    RankedFive(a, b, c, l, o);
  }

  ghost predicate AllRanked(issues: seq<Issue>, r: nat)
  {
    forall i :: i in issues ==> Rank(i.problem) == r
  }

  lemma RankedFive(a: seq<Issue>, b: seq<Issue>, c: seq<Issue>, l: seq<Issue>, o: seq<Issue>)
    requires AllRanked(a, 0) && AllRanked(b, 1) && AllRanked(c, 2) && AllRanked(l, 3) && AllRanked(o, 4)
    ensures Ranked(a + b + c + l + o)
  {
    RankedJoin(a, b, 1);
    RankedJoin(a + b, c, 2);
    RankedJoin(a + b + c, l, 3);
    RankedJoin(a + b + c + l, o, 4);
  }

  lemma PartRanks(lx: Lexer, rule: SchemaRule, d: Dict)
    ensures AllRanked(MissingIn(d, rule.required, OnRequired()), 0)
    ensures AllRanked(MissingIn(d, rule.recommended, OnRecommended()), 1)
    ensures AllRanked(TypeIssues(lx, rule.propertyTypes, d), 2)
    ensures AllRanked(ListIssues(rule, d), 3)
    ensures AllRanked(ObjectIssues(rule.objectRecommended, d), 4)
  {
    var a, b := MissingIn(d, rule.required, OnRequired()), MissingIn(d, rule.recommended, OnRecommended());
    var c, l, o := TypeIssues(lx, rule.propertyTypes, d), ListIssues(rule, d), ObjectIssues(rule.objectRecommended, d);
    forall i | i in a ensures Rank(i.problem) == 0 {
      MissingInExact(d, rule.required, OnRequired(), i);
    }
    forall i | i in b ensures Rank(i.problem) == 1 {
      MissingInExact(d, rule.recommended, OnRecommended(), i);
    }
    forall i | i in c ensures Rank(i.problem) == 2 {
      TypeIssuesExact(lx, rule.propertyTypes, d, i);
    }
    forall i | i in l ensures Rank(i.problem) == 3 {
      ListReports(rule, d, i);
    }
    forall i | i in o ensures Rank(i.problem) == 4 {
      ObjectsExact(rule.objectRecommended, d, i);
    }
  }

  function MissingTest(d: Dict): string -> bool { (p: string) => IsMissing(d, p) }

  function MadeBy(make: string -> Issue): string -> seq<Issue> { (p: string) => [make(p)] }

  /** Each listing of a missing property gives one report, in the order of the rule. */
  lemma {:induction false} OneReportEach(d: Dict, props: seq<string>, make: string -> Issue)
    ensures MissingIn(d, props, make) == FlatMap(Filter(props, MissingTest(d)), MadeBy(make))
  {
    if props != [] {
      OneReportEach(d, props[..|props| - 1], make);
      FlatFilterStep(props, MissingTest(d), MadeBy(make));
    }
  }
}
