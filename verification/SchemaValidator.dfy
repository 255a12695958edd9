/** The rule-driven validator for one structured-data object, over any rule table. */
module SchemaValidator {
  import opened Prelude
  import opened Json
  import opened PyText

  const PARSE_ERROR_KEY := "@parseError"
  const TYPE_KEY := "@type"
  const UNKNOWN_TYPE := "Unknown"

  datatype Severity = Error | Warning | Info

  /** What an issue points at. The validator reports these as dotted strings. */
  datatype Field =
    | TypeField
    | Prop(name: string)
    | Entry(list: string, index: nat)
    | EntryType(list: string, index: nat)
    | EntrySub(list: string, index: nat, sub: string)
    | EntryNested(list: string, index: nat, parent: string, sub: string)
    | Sub(parent: string, sub: string)

  datatype Problem =
    | BadSyntax | NoType | NoRules
    | MissingRequired | MissingRecommended | WrongType
    | NotAnObject | WrongItemType | MissingInEntry | MissingInNested | MissingInObject

  datatype Issue = Issue(severity: Severity, field: Field, problem: Problem)

  datatype Verdict = Verdict(schemaType: string, isValid: bool, rich: bool, issues: seq<Issue>)

  /** The expected-type tokens; an unknown token accepts everything. */
  datatype Expected =
    | AnyText | Url | Number | Date | DateTime | Image | Object | Array | TextOrObject
    | Unrecognised(token: string)

  datatype SchemaRule = SchemaRule(
    required: seq<string>,
    recommended: seq<string>,
    propertyTypes: seq<(string, Expected)>,
    richRequired: seq<string>,
    listProperty: Option<string>,
    listItemType: Option<string>,
    listItemRequired: seq<string>,
    listItemNested: seq<(string, seq<string>)>,
    objectRecommended: seq<(string, seq<string>)>)

  /** The rule table, in registration order. */
  type Rules = seq<(string, SchemaRule)>

  /** Python string functions whose definition is not part of this model. */
  datatype Lexer = Lexer(lower: string -> string, isFloat: string -> bool, isDigit: char -> bool)

  // --------------------------------------------------------------------------- types and lookup

  function FirstTruthy(items: seq<Json>): Json
  {
    if items == [] then Null else if Truthy(items[0]) then items[0] else FirstTruthy(items[1..])
  }

  function ResolveType(d: Dict): Option<string>
  {
    if PARSE_ERROR_KEY in d then None
    else
      var t := Get(d, TYPE_KEY);
      var value := if t.Arr? then FirstTruthy(t.items) else t;
      if value.Str? && Strip(value.s) != "" then Some(Segment(Strip(value.s))) else None
  }

  function ExactRule(rules: Rules, name: string): Option<SchemaRule>
  {
    if rules == [] then None else if rules[0].0 == name then Some(rules[0].1) else ExactRule(rules[1..], name)
  }

  function FoldedRule(lx: Lexer, rules: Rules, lowered: string): Option<SchemaRule>
  {
    if rules == [] then None
    else if lx.lower(rules[0].0) == lowered then Some(rules[0].1)
    else FoldedRule(lx, rules[1..], lowered)
  }

  /** An exact match wins over a case-insensitive one. */
  function GetRule(lx: Lexer, rules: Rules, name: string): Option<SchemaRule>
  {
    if name == "" then None
    else if ExactRule(rules, name).Some? then ExactRule(rules, name)
    else FoldedRule(lx, rules, lx.lower(name))
  }

  predicate IsMissing(d: Dict, prop: string)
  {
    prop !in d
    || match d[prop]
       case Null => true
       case Str(s) => Strip(s) == ""
       case Arr(items) => items == []
       case Obj(fields) => fields == map[]
       case _ => false
  }

  predicate LooksLikeUrl(lx: Lexer, x: Json)
  {
    x.Str? && var s := lx.lower(Strip(x.s)); "http://" <= s || "https://" <= s || "//" <= s || "/" <= s
  }

  function WithoutCommas(s: string): string
  {
    if s == "" then "" else (if s[0] == ',' then [] else [s[0]]) + WithoutCommas(s[1..])
  }

  predicate IsNumeric(lx: Lexer, x: Json)
  {
    x.Num? || (x.Str? && lx.isFloat(WithoutCommas(x.s)))
  }

  predicate IsIsoDate(lx: Lexer, x: Json)
  {
    x.Str? &&
    var s := Strip(x.s);
    && |s| >= 10 && s[4] == '-' && s[7] == '-'
    && forall k | 0 <= k < 10 && k != 4 && k != 7 :: lx.isDigit(s[k])
  }

  predicate TypeOk(lx: Lexer, x: Json, expected: Expected)
  {
    match expected
    case AnyText => x.Str? || (x.Arr? && forall v | v in x.items :: v.Str?)
    case Url => LooksLikeUrl(lx, x)
    case Number => IsNumeric(lx, x)
    case Date => IsIsoDate(lx, x)
    case DateTime => IsIsoDate(lx, x)
    case Image => LooksLikeUrl(lx, x) || x.Obj? || (x.Arr? && forall v | v in x.items :: LooksLikeUrl(lx, v) || v.Obj?)
    case Object => x.Obj? || (x.Arr? && forall v | v in x.items :: v.Obj?)
    case Array => x.Arr?
    case TextOrObject => x.Str? || x.Obj? || x.Arr?
    case Unrecognised(_) => true
  }

  // ------------------------------------------------------------------------------- the issues

  /** One issue for each property that is missing, in order. */
  function MissingIn(d: Dict, props: seq<string>, make: string -> Issue): seq<Issue>
  {
    if props == [] then []
    else
      var last := props[|props| - 1];
      MissingIn(d, props[..|props| - 1], make) + if IsMissing(d, last) then [make(last)] else []
  }

  function OnRequired(): string -> Issue { p => Issue(Error, Prop(p), MissingRequired) }
  function OnRecommended(): string -> Issue { p => Issue(Warning, Prop(p), MissingRecommended) }
  function OnEntry(list: string, i: nat): string -> Issue { p => Issue(Error, EntrySub(list, i, p), MissingInEntry) }
  function OnNested(list: string, i: nat, parent: string): string -> Issue
  {
    p => Issue(Error, EntryNested(list, i, parent, p), MissingInNested)
  }
  function OnObject(parent: string): string -> Issue { p => Issue(Warning, Sub(parent, p), MissingInObject) }

  function TypeIssues(lx: Lexer, types: seq<(string, Expected)>, d: Dict): seq<Issue>
  {
    if types == [] then []
    else
      var (p, expected) := types[|types| - 1];
      TypeIssues(lx, types[..|types| - 1], d)
      + if !IsMissing(d, p) && !TypeOk(lx, d[p], expected) then [Issue(Error, Prop(p), WrongType)] else []
  }

  function NestedIssues(nested: seq<(string, seq<string>)>, list: string, i: nat, entry: Dict): seq<Issue>
  {
    if nested == [] then []
    else
      var (parent, subs) := nested[|nested| - 1];
      var child := Get(entry, parent);
      NestedIssues(nested[..|nested| - 1], list, i, entry)
      + if child.Obj? then MissingIn(child.fields, subs, OnNested(list, i, parent)) else []
  }

  function EntryTypeIssues(rule: SchemaRule, list: string, i: nat, entry: Dict): seq<Issue>
  {
    if rule.listItemType.Some? && rule.listItemType.value != "" then
      var t := ResolveType(entry);
      if t.Some? && t.value != "" && t != rule.listItemType
      then [Issue(Warning, EntryType(list, i), WrongItemType)] else []
    else []
  }

  function EntryIssues(rule: SchemaRule, list: string, i: nat, entry: Json): seq<Issue>
  {
    if !entry.Obj? then [Issue(Error, Entry(list, i), NotAnObject)]
    else
      EntryTypeIssues(rule, list, i, entry.fields)
      + MissingIn(entry.fields, rule.listItemRequired, OnEntry(list, i))
      + NestedIssues(rule.listItemNested, list, i, entry.fields)
  }

  function EntriesIssues(rule: SchemaRule, list: string, items: seq<Json>): seq<Issue>
  {
    if items == [] then []
    else
      EntriesIssues(rule, list, items[..|items| - 1]) + EntryIssues(rule, list, |items| - 1, items[|items| - 1])
  }

  function ListIssues(rule: SchemaRule, d: Dict): seq<Issue>
  {
    if rule.listProperty.None? || rule.listProperty.value == "" then []
    else
      var value := Get(d, rule.listProperty.value);
      if value.Arr? then EntriesIssues(rule, rule.listProperty.value, value.items) else []
  }

  function Candidates(x: Json): seq<Json> { if x.Arr? then x.items else [x] }

  function CandidateIssues(cs: seq<Json>, parent: string, subs: seq<string>): seq<Issue>
  {
    if cs == [] then []
    else
      var c := cs[|cs| - 1];
      CandidateIssues(cs[..|cs| - 1], parent, subs) + if c.Obj? then MissingIn(c.fields, subs, OnObject(parent)) else []
  }

  function ObjectIssues(table: seq<(string, seq<string>)>, d: Dict): seq<Issue>
  {
    if table == [] then []
    else
      var (parent, subs) := table[|table| - 1];
      ObjectIssues(table[..|table| - 1], d) + CandidateIssues(Candidates(Get(d, parent)), parent, subs)
  }

  function RuleIssues(lx: Lexer, rule: SchemaRule, d: Dict): seq<Issue>
  {
    MissingIn(d, rule.required, OnRequired())
    + MissingIn(d, rule.recommended, OnRecommended())
    + TypeIssues(lx, rule.propertyTypes, d)
    + ListIssues(rule, d)
    + ObjectIssues(rule.objectRecommended, d)
  }

  predicate IsError(i: Issue) { i.severity == Error }
  predicate IsWarning(i: Issue) { i.severity == Warning }
  predicate IsInfo(i: Issue) { i.severity == Info }

  predicate RichEligible(rule: SchemaRule, d: Dict)
  {
    forall p | p in rule.richRequired :: !IsMissing(d, p)
  }

  function Validate(lx: Lexer, rules: Rules, schemaType: Option<string>, d: Dict): Verdict
  {
    if PARSE_ERROR_KEY in d then Verdict(UNKNOWN_TYPE, false, false, [Issue(Error, TypeField, BadSyntax)])
    else if schemaType.None? || schemaType.value == "" then
      Verdict(UNKNOWN_TYPE, false, false, [Issue(Error, TypeField, NoType)])
    else
      match GetRule(lx, rules, schemaType.value)
      case None => Verdict(schemaType.value, true, false, [Issue(Info, TypeField, NoRules)])
      case Some(rule) =>
        var issues := RuleIssues(lx, rule, d);
        var isValid := forall i | i in issues :: !IsError(i);
        Verdict(schemaType.value, isValid, isValid && RichEligible(rule, d), issues)
  }

  // ----------------------------------------------------------------------- the validator's loops

  method CollectMissing(d: Dict, props: seq<string>, make: string -> Issue) returns (issues: seq<Issue>)
    ensures issues == MissingIn(d, props, make)
  {
    issues := [];
    for k := 0 to |props|
      invariant issues == MissingIn(d, props[..k], make)
    {
      assert props[..k + 1][..k] == props[..k];
      if IsMissing(d, props[k]) {
        issues := issues + [make(props[k])];
      }
    }
    assert props[..|props|] == props;
  }

  method ValidateEntry(rule: SchemaRule, list: string, i: nat, entry: Json) returns (issues: seq<Issue>)
    ensures issues == EntryIssues(rule, list, i, entry)
  {
    if !entry.Obj? {
      return [Issue(Error, Entry(list, i), NotAnObject)];
    }
    issues := [];
    if rule.listItemType.Some? && rule.listItemType.value != "" {
      var entryType := ResolveType(entry.fields);
      if entryType.Some? && entryType.value != "" && entryType.value != rule.listItemType.value {
        issues := issues + [Issue(Warning, EntryType(list, i), WrongItemType)];
      }
    }
    var missing := CollectMissing(entry.fields, rule.listItemRequired, OnEntry(list, i));
    issues := issues + missing;
    issues := ValidateNested(rule.listItemNested, list, i, entry.fields, issues);
  }

  /** The innermost loop of `_validate_list`. */
  method ValidateNested(nested: seq<(string, seq<string>)>, list: string, i: nat, entry: Dict, before: seq<Issue>)
    returns (issues: seq<Issue>)
    ensures issues == before + NestedIssues(nested, list, i, entry)
  {
    issues := before;
    assert before + [] == before;
    for k := 0 to |nested|
      invariant issues == before + NestedIssues(nested[..k], list, i, entry)
    {
      assert nested[..k + 1][..k] == nested[..k];
      var (parent, subs) := nested[k];
      var child := Get(entry, parent);
      if child.Obj? {
        var inner := CollectMissing(child.fields, subs, OnNested(list, i, parent));
        issues := issues + inner;
      }
    }
    assert nested[..|nested|] == nested;
  }

  lemma EntriesStep(rule: SchemaRule, list: string, items: seq<Json>, i: nat)
    requires i < |items|
    ensures EntriesIssues(rule, list, items[..i + 1])
            == EntriesIssues(rule, list, items[..i]) + EntryIssues(rule, list, i, items[i])
  {
    assert items[..i + 1][..i] == items[..i];
  }

  method ValidateList(rule: SchemaRule, d: Dict) returns (issues: seq<Issue>)
    requires rule.listProperty.Some? && rule.listProperty.value != ""
    ensures issues == ListIssues(rule, d)
  {
    issues := [];
    var list := rule.listProperty.value;
    var value := Get(d, list);
    if !value.Arr? {
      return;
    }
    for index := 0 to |value.items|
      invariant issues == EntriesIssues(rule, list, value.items[..index])
    {
      EntriesStep(rule, list, value.items, index);
      var found := ValidateEntry(rule, list, index, value.items[index]);
      issues := issues + found;
    }
    assert value.items[..|value.items|] == value.items;
  }

  method ValidateCandidates(cs: seq<Json>, parent: string, subs: seq<string>) returns (issues: seq<Issue>)
    ensures issues == CandidateIssues(cs, parent, subs)
  {
    issues := [];
    for k := 0 to |cs|
      invariant issues == CandidateIssues(cs[..k], parent, subs)
    {
      assert cs[..k + 1][..k] == cs[..k];
      if cs[k].Obj? {
        var found := CollectMissing(cs[k].fields, subs, OnObject(parent));
        issues := issues + found;
      }
    }
    assert cs[..|cs|] == cs;
  }

  lemma ObjectStep(table: seq<(string, seq<string>)>, d: Dict, k: nat)
    requires k < |table|
    ensures ObjectIssues(table[..k + 1], d)
            == ObjectIssues(table[..k], d) + CandidateIssues(Candidates(Get(d, table[k].0)), table[k].0, table[k].1)
  {
    assert table[..k + 1][..k] == table[..k];
  }

  method ValidateObjectRecommended(rule: SchemaRule, d: Dict) returns (issues: seq<Issue>)
    ensures issues == ObjectIssues(rule.objectRecommended, d)
  {
    issues := [];
    var table := rule.objectRecommended;
    for k := 0 to |table|
      invariant issues == ObjectIssues(table[..k], d)
    {
      ObjectStep(table, d, k);
      var (parent, subs) := table[k];
      var found := ValidateCandidates(Candidates(Get(d, parent)), parent, subs);
      issues := issues + found;
    }
    assert table[..|table|] == table;
  }

  method CheckTypes(lx: Lexer, rule: SchemaRule, d: Dict) returns (issues: seq<Issue>)
    ensures issues == TypeIssues(lx, rule.propertyTypes, d)
  {
    issues := [];
    var types := rule.propertyTypes;
    for k := 0 to |types|
      invariant issues == TypeIssues(lx, types[..k], d)
    {
      assert types[..k + 1][..k] == types[..k];
      var (p, expected) := types[k];
      if !IsMissing(d, p) && !TypeOk(lx, d[p], expected) {
        issues := issues + [Issue(Error, Prop(p), WrongType)];
      }
    }
    assert types[..|types|] == types;
  }

  method ValidateSchema(lx: Lexer, rules: Rules, schemaType: Option<string>, d: Dict) returns (v: Verdict)
    ensures v == Validate(lx, rules, schemaType, d)
  {
    if PARSE_ERROR_KEY in d {
      return Verdict(UNKNOWN_TYPE, false, false, [Issue(Error, TypeField, BadSyntax)]);
    }
    if schemaType.None? || schemaType.value == "" {
      return Verdict(UNKNOWN_TYPE, false, false, [Issue(Error, TypeField, NoType)]);
    }
    var found := GetRule(lx, rules, schemaType.value);
    if found.None? {
      return Verdict(schemaType.value, true, false, [Issue(Info, TypeField, NoRules)]);
    }
    var issues := RunRule(lx, found.value, d);
    var hasError := AnyError(issues);
    var isValid := !hasError;
    v := Verdict(schemaType.value, isValid, isValid && RichEligible(found.value, d), issues);
  }

  method RunRule(lx: Lexer, rule: SchemaRule, d: Dict) returns (issues: seq<Issue>)
    ensures issues == RuleIssues(lx, rule, d)
  {
    issues := CollectMissing(d, rule.required, OnRequired());
    var more := CollectMissing(d, rule.recommended, OnRecommended());
    issues := issues + more;
    more := CheckTypes(lx, rule, d);
    issues := issues + more;
    if rule.listProperty.Some? && rule.listProperty.value != "" {
      more := ValidateList(rule, d);
      issues := issues + more;
    }
    more := ValidateObjectRecommended(rule, d);
    issues := issues + more;
  }

  method AnyError(issues: seq<Issue>) returns (hasError: bool)
    ensures hasError <==> exists i :: i in issues && IsError(i)
  {
    hasError := false;
    for k := 0 to |issues|
      invariant hasError <==> exists j :: 0 <= j < k && IsError(issues[j])
    {
      hasError := hasError || IsError(issues[k]);
    }
  }

  // -------------------------------------------------------------------- filling a missing property

  /** The issues that say `prop` itself is missing. */
  predicate SaysMissing(i: Issue, prop: string)
  {
    i.field == Prop(prop) && (i.problem == MissingRequired || i.problem == MissingRecommended)
  }

  /** The recommendations about the fields of `prop`. */
  predicate AboutFields(i: Issue, prop: string)
  {
    i.field.Sub? && i.field.parent == prop
  }

  predicate Untouched(i: Issue, prop: string)
  {
    !SaysMissing(i, prop) && !AboutFields(i, prop)
  }

  /** `prop` is missing from `d`, and `v` is a proper value for it under the rule. */
  ghost predicate Fills(lx: Lexer, rule: SchemaRule, d: Dict, prop: string, v: Json)
  {
    && IsMissing(d, prop) && !IsMissing(d[prop := v], prop)
    && (forall k :: 0 <= k < |rule.propertyTypes| && rule.propertyTypes[k].0 == prop ==>
          TypeOk(lx, v, rule.propertyTypes[k].1))
    && rule.listProperty != Some(prop)
  }

  function Keep(prop: string): Issue -> bool { i => Untouched(i, prop) }

  /** Missing-property reports agree once those about `prop` are set aside. */
  lemma {:induction false} FillMissingIn(d: Dict, prop: string, v: Json, props: seq<string>, make: string -> Issue)
    requires !Untouched(make(prop), prop)
    ensures Filter(MissingIn(d[prop := v], props, make), Keep(prop)) == Filter(MissingIn(d, props, make), Keep(prop))
  {
    if props != [] {
      var rest, last := props[..|props| - 1], props[|props| - 1];
      FillMissingIn(d, prop, v, rest, make);
      var was: seq<Issue> := if IsMissing(d, last) then [make(last)] else [];
      var now: seq<Issue> := if IsMissing(d[prop := v], last) then [make(last)] else [];
      FilterAppend(MissingIn(d, rest, make), was, Keep(prop));
      FilterAppend(MissingIn(d[prop := v], rest, make), now, Keep(prop));
      if last == prop {
        FilterNone(was, Keep(prop));
        FilterNone(now, Keep(prop));
      } else {
        assert was == now;
      }
    }
  }

  lemma {:induction false} FillTypes(lx: Lexer, d: Dict, prop: string, v: Json, types: seq<(string, Expected)>)
    requires IsMissing(d, prop)
    requires forall k :: 0 <= k < |types| && types[k].0 == prop ==> TypeOk(lx, v, types[k].1)
    ensures TypeIssues(lx, types, d[prop := v]) == TypeIssues(lx, types, d)
  {
    if types != [] {
      FillTypes(lx, d, prop, v, types[..|types| - 1]);
    }
  }

  lemma {:induction false} MissingInAreMade(d: Dict, props: seq<string>, make: string -> Issue)
    ensures forall i :: i in MissingIn(d, props, make) ==> exists p :: i == make(p)
  {
    if props != [] {
      MissingInAreMade(d, props[..|props| - 1], make);
    }
  }

  /** The recommendations of one table row are all about that row's object. */
  lemma {:induction false} CandidateIssuesShape(cs: seq<Json>, parent: string, subs: seq<string>)
    ensures forall i :: i in CandidateIssues(cs, parent, subs) ==>
              i.severity == Warning && i.field.Sub? && i.field.parent == parent
  {
    if cs != [] {
      CandidateIssuesShape(cs[..|cs| - 1], parent, subs);
      var c := cs[|cs| - 1];
      if c.Obj? {
        MissingInAreMade(c.fields, subs, OnObject(parent));
      }
    }
  }

  lemma {:induction false} FillObjects(d: Dict, prop: string, v: Json, table: seq<(string, seq<string>)>)
    ensures Filter(ObjectIssues(table, d[prop := v]), Keep(prop)) == Filter(ObjectIssues(table, d), Keep(prop))
  {
    if table != [] {
      var rest := table[..|table| - 1];
      var (parent, subs) := table[|table| - 1];
      var was, now := CandidateIssues(Candidates(Get(d, parent)), parent, subs),
                      CandidateIssues(Candidates(Get(d[prop := v], parent)), parent, subs);
      FillObjects(d, prop, v, rest);
      FilterAppend(ObjectIssues(rest, d), was, Keep(prop));
      FilterAppend(ObjectIssues(rest, d[prop := v]), now, Keep(prop));
      if parent == prop {
        CandidateIssuesShape(Candidates(Get(d, parent)), parent, subs);
        CandidateIssuesShape(Candidates(Get(d[prop := v], parent)), parent, subs);
        FilterNone(was, Keep(prop));
        FilterNone(now, Keep(prop));
      }
    }
  }

  lemma FilterAppend5<T>(a: seq<T>, b: seq<T>, c: seq<T>, d: seq<T>, e: seq<T>, p: T -> bool)
    ensures Filter(a + b + c + d + e, p) == Filter(a, p) + Filter(b, p) + Filter(c, p) + Filter(d, p) + Filter(e, p)
  {
    FilterAppend(a, b, p);
    FilterAppend(a + b, c, p);
    FilterAppend(a + b + c, d, p);
    FilterAppend(a + b + c + d, e, p);
  }

  /** Filling leaves every other issue where it was. */
  lemma FillKeepsTheRest(lx: Lexer, rule: SchemaRule, d: Dict, prop: string, v: Json)
    requires Fills(lx, rule, d, prop, v)
    ensures Filter(RuleIssues(lx, rule, d[prop := v]), Keep(prop)) == Filter(RuleIssues(lx, rule, d), Keep(prop))
  {
    var d' := d[prop := v];
    FillMissingIn(d, prop, v, rule.required, OnRequired());
    FillMissingIn(d, prop, v, rule.recommended, OnRecommended());
    FillTypes(lx, d, prop, v, rule.propertyTypes);
    FillObjects(d, prop, v, rule.objectRecommended);
    FilterAppend5(MissingIn(d, rule.required, OnRequired()), MissingIn(d, rule.recommended, OnRecommended()),
                  TypeIssues(lx, rule.propertyTypes, d), ListIssues(rule, d), ObjectIssues(rule.objectRecommended, d), Keep(prop));
    FilterAppend5(MissingIn(d', rule.required, OnRequired()), MissingIn(d', rule.recommended, OnRecommended()),
                  TypeIssues(lx, rule.propertyTypes, d'), ListIssues(rule, d'), ObjectIssues(rule.objectRecommended, d'), Keep(prop));
  }

  // ------------------------------------------------------------------ what an issue's shape tells

  lemma {:induction false} MissingInMembers(d: Dict, props: seq<string>, make: string -> Issue, i: Issue)
    requires i in MissingIn(d, props, make)
    ensures exists p :: p in props && IsMissing(d, p) && i == make(p)
  {
    var rest, last := props[..|props| - 1], props[|props| - 1];
    if i in MissingIn(d, rest, make) {
      MissingInMembers(d, rest, make, i);
      var p :| p in rest && IsMissing(d, p) && i == make(p);
      assert p in props;
    } else {
      assert last in props;
    }
  }

  lemma {:induction false} TypeIssueMembers(lx: Lexer, types: seq<(string, Expected)>, d: Dict, i: Issue)
    requires i in TypeIssues(lx, types, d)
    ensures i.problem == WrongType && i.severity == Error && i.field.Prop?
  {
    if i in TypeIssues(lx, types[..|types| - 1], d) {
      TypeIssueMembers(lx, types[..|types| - 1], d, i);
    }
  }

  predicate InsideList(i: Issue)
  {
    i.field.Entry? || i.field.EntryType? || i.field.EntrySub? || i.field.EntryNested?
  }

  lemma {:induction false} NestedIssueMembers(nested: seq<(string, seq<string>)>, list: string, k: nat, entry: Dict, i: Issue)
    requires i in NestedIssues(nested, list, k, entry)
    ensures InsideList(i) && i.severity == Error
  {
    var rest := nested[..|nested| - 1];
    var (parent, subs) := nested[|nested| - 1];
    if i in NestedIssues(rest, list, k, entry) {
      NestedIssueMembers(rest, list, k, entry, i);
    } else {
      MissingInMembers(Get(entry, parent).fields, subs, OnNested(list, k, parent), i);
    }
  }

  lemma {:induction false} EntriesIssueMembers(rule: SchemaRule, list: string, items: seq<Json>, i: Issue)
    requires i in EntriesIssues(rule, list, items)
    ensures InsideList(i) && i.severity != Info
  {
    var n := |items| - 1;
    if i in EntriesIssues(rule, list, items[..n]) {
      EntriesIssueMembers(rule, list, items[..n], i);
    } else if items[n].Obj? {
      var entry := items[n].fields;
      if i in MissingIn(entry, rule.listItemRequired, OnEntry(list, n)) {
        MissingInMembers(entry, rule.listItemRequired, OnEntry(list, n), i);
      } else if i in NestedIssues(rule.listItemNested, list, n, entry) {
        NestedIssueMembers(rule.listItemNested, list, n, entry, i);
      }
    }
  }

  lemma {:induction false} ObjectIssueMembers(table: seq<(string, seq<string>)>, d: Dict, i: Issue)
    requires i in ObjectIssues(table, d)
    ensures i.severity == Warning && i.field.Sub?
  {
    var rest := table[..|table| - 1];
    var (parent, subs) := table[|table| - 1];
    if i in ObjectIssues(rest, d) {
      ObjectIssueMembers(rest, d, i);
    } else {
      CandidateIssuesShape(Candidates(Get(d, parent)), parent, subs);
    }
  }

  /** Only really missing properties are reported missing, nothing a rule emits is INFO, and the reports
      about an object's fields are warnings. */
  lemma RuleIssueMembers(lx: Lexer, rule: SchemaRule, d: Dict, i: Issue)
    requires i in RuleIssues(lx, rule, d)
    ensures i.severity != Info
    ensures i.field.Sub? ==> i.severity == Warning
    ensures forall p :: SaysMissing(i, p) ==> IsMissing(d, p)
  {
    if i in MissingIn(d, rule.required, OnRequired()) {
      MissingInMembers(d, rule.required, OnRequired(), i);
    } else if i in MissingIn(d, rule.recommended, OnRecommended()) {
      MissingInMembers(d, rule.recommended, OnRecommended(), i);
    } else if i in TypeIssues(lx, rule.propertyTypes, d) {
      TypeIssueMembers(lx, rule.propertyTypes, d, i);
    } else if i in ListIssues(rule, d) {
      EntriesIssueMembers(rule, rule.listProperty.value, Get(d, rule.listProperty.value).items, i);
    } else {
      ObjectIssueMembers(rule.objectRecommended, d, i);
    }
  }

  /** The first verdict is the second without the reports that `prop` is missing. */
  ghost predicate FilledVerdict(was: Verdict, now: Verdict, prop: string)
  {
    && now.schemaType == was.schemaType
    && Filter(now.issues, i => !AboutFields(i, prop)) == Filter(was.issues, Keep(prop))
    && Filter(now.issues, i => IsError(i)) == Filter(was.issues, i => IsError(i) && !SaysMissing(i, prop))
    && (forall i :: i in now.issues ==> !SaysMissing(i, prop))
    && (was.isValid ==> now.isValid)
    && (was.rich ==> now.rich)
  }

  lemma SameIssues(was: Verdict, now: Verdict, prop: string)
    requires now == was && forall i :: i in was.issues ==> i.field == TypeField
    ensures FilledVerdict(was, now, prop)
  {
    FilterSame(was.issues, i => !AboutFields(i, prop), Keep(prop));
    FilterSame(was.issues, i => IsError(i), i => IsError(i) && !SaysMissing(i, prop));
  }

  lemma FilledIssues(was: seq<Issue>, now: seq<Issue>, prop: string)
    requires Filter(now, Keep(prop)) == Filter(was, Keep(prop))
    requires forall i :: i in now ==> !SaysMissing(i, prop)
    requires forall i :: i in was || i in now ==> (i.field.Sub? ==> i.severity == Warning)
    ensures Filter(now, i => !AboutFields(i, prop)) == Filter(was, Keep(prop))
    ensures Filter(now, i => IsError(i)) == Filter(was, i => IsError(i) && !SaysMissing(i, prop))
  {
    FilterSame(now, i => !AboutFields(i, prop), Keep(prop));
    FilterTwice(now, Keep(prop), i => IsError(i));
    FilterTwice(was, Keep(prop), i => IsError(i));
    FilterSame(now, i => IsError(i), x => Keep(prop)(x) && (i => IsError(i))(x));
    FilterSame(was, i => IsError(i) && !SaysMissing(i, prop), x => Keep(prop)(x) && (i => IsError(i))(x));
  }

  /** Filling a missing property with a proper value removes exactly the reports that it is missing,
      adds no error, and keeps validity and rich-result eligibility; for every rule table. */
  lemma FillingHelps(lx: Lexer, rules: Rules, schemaType: Option<string>, d: Dict, prop: string, v: Json)
    requires PARSE_ERROR_KEY !in d && prop != PARSE_ERROR_KEY
    requires schemaType.Some? && GetRule(lx, rules, schemaType.value).Some?
             ==> Fills(lx, GetRule(lx, rules, schemaType.value).value, d, prop, v)
    ensures FilledVerdict(Validate(lx, rules, schemaType, d), Validate(lx, rules, schemaType, d[prop := v]), prop)
  {
    var was, now := Validate(lx, rules, schemaType, d), Validate(lx, rules, schemaType, d[prop := v]);
    if schemaType.None? || schemaType.value == "" || GetRule(lx, rules, schemaType.value).None? {
      SameIssues(was, now, prop);
    } else {
      var rule := GetRule(lx, rules, schemaType.value).value;
      FillingRule(lx, rule, d, prop, v);
      StaysValid(was.issues, now.issues, prop);
    }
  }

  lemma FillingRule(lx: Lexer, rule: SchemaRule, d: Dict, prop: string, v: Json)
    requires Fills(lx, rule, d, prop, v)
    ensures var was, now := RuleIssues(lx, rule, d), RuleIssues(lx, rule, d[prop := v]);
            && Filter(now, i => !AboutFields(i, prop)) == Filter(was, Keep(prop))
            && Filter(now, i => IsError(i)) == Filter(was, i => IsError(i) && !SaysMissing(i, prop))
            && forall i :: i in now ==> !SaysMissing(i, prop)
  {
    var was, now := RuleIssues(lx, rule, d), RuleIssues(lx, rule, d[prop := v]);
    FillKeepsTheRest(lx, rule, d, prop, v);
    forall i | i in was ensures i.field.Sub? ==> i.severity == Warning {
      RuleIssueMembers(lx, rule, d, i);
    }
    forall i | i in now ensures !SaysMissing(i, prop) && (i.field.Sub? ==> i.severity == Warning) {
      RuleIssueMembers(lx, rule, d[prop := v], i);
    }
    FilledIssues(was, now, prop);
  }

  lemma StaysValid(was: seq<Issue>, now: seq<Issue>, prop: string)
    requires Filter(now, i => IsError(i)) == Filter(was, i => IsError(i) && !SaysMissing(i, prop))
    ensures (forall i :: i in was ==> !IsError(i)) ==> forall i :: i in now ==> !IsError(i)
  {
    if forall i :: i in was ==> !IsError(i) {
      FilterNone(was, i => IsError(i) && !SaysMissing(i, prop));
      forall i | i in now ensures !IsError(i) {
        FilterMember(now, i => IsError(i), i);
      }
    }
  }

  // ----------------------------------------------------------------------- filling the list property

  predicate Complete(d: Dict, props: seq<string>)
  {
    forall p | p in props :: !IsMissing(d, p)
  }

  /** The nested objects that an entry has are complete. */
  predicate CompleteNested(nested: seq<(string, seq<string>)>, entry: Dict)
  {
    forall k | 0 <= k < |nested| :: NestedComplete(nested[k].0, nested[k].1, entry)
  }

  predicate NestedComplete(parent: string, subs: seq<string>, entry: Dict)
  {
    Get(entry, parent).Obj? ==> Complete(Get(entry, parent).fields, subs)
  }

  /** A list entry that the rule accepts: an object with its required fields, nested ones included. */
  predicate ProperEntry(rule: SchemaRule, entry: Json)
  {
    entry.Obj? && Complete(entry.fields, rule.listItemRequired) && CompleteNested(rule.listItemNested, entry.fields)
  }

  /** A value whose list entries, if it is a list, are all accepted. An empty list name switches the check off. */
  predicate ProperList(rule: SchemaRule, list: string, v: Json)
  {
    list != "" && v.Arr? ==> forall k | 0 <= k < |v.items| :: ProperEntry(rule, v.items[k])
  }

  ghost predicate NoError(issues: seq<Issue>)
  {
    forall i :: i in issues ==> !IsError(i)
  }

  lemma NoErrorConcat(a: seq<Issue>, b: seq<Issue>)
    ensures NoError(a + b) <==> NoError(a) && NoError(b)
  {
    assert forall i :: i in a + b <==> i in a || i in b;
  }

  lemma {:induction false} MissingErrors(d: Dict, props: seq<string>, make: string -> Issue)
    requires forall p :: IsError(make(p))
    ensures NoError(MissingIn(d, props, make)) <==> Complete(d, props)
  {
    if props != [] {
      var rest, last := props[..|props| - 1], props[|props| - 1];
      MissingErrors(d, rest, make);
      SplitLast(props);
      NoErrorConcat(MissingIn(d, rest, make), if IsMissing(d, last) then [make(last)] else []);
      assert IsMissing(d, last) ==> make(last) in [make(last)];
    }
  }

  lemma {:induction false} NestedErrors(nested: seq<(string, seq<string>)>, list: string, i: nat, entry: Dict)
    ensures NoError(NestedIssues(nested, list, i, entry)) <==> CompleteNested(nested, entry)
  {
    if nested != [] {
      var rest, n := nested[..|nested| - 1], |nested| - 1;
      var (parent, subs) := nested[n];
      var child := Get(entry, parent);
      NestedErrors(rest, list, i, entry);
      NoErrorConcat(NestedIssues(rest, list, i, entry),
                    if child.Obj? then MissingIn(child.fields, subs, OnNested(list, i, parent)) else []);
      if child.Obj? {
        MissingErrors(child.fields, subs, OnNested(list, i, parent));
      }
      assert forall k :: 0 <= k < n ==> rest[k] == nested[k];
      assert CompleteNested(nested, entry) <==> CompleteNested(rest, entry) && NestedComplete(parent, subs, entry);
    }
  }

  lemma EntryErrors(rule: SchemaRule, list: string, i: nat, entry: Json)
    ensures NoError(EntryIssues(rule, list, i, entry)) <==> ProperEntry(rule, entry)
  {
    if entry.Obj? {
      var typed, missing := EntryTypeIssues(rule, list, i, entry.fields), MissingIn(entry.fields, rule.listItemRequired, OnEntry(list, i));
      MissingErrors(entry.fields, rule.listItemRequired, OnEntry(list, i));
      NestedErrors(rule.listItemNested, list, i, entry.fields);
      NoErrorConcat(typed, missing);
      NoErrorConcat(typed + missing, NestedIssues(rule.listItemNested, list, i, entry.fields));
    } else {
      assert Issue(Error, Entry(list, i), NotAnObject) in EntryIssues(rule, list, i, entry);
    }
  }

  ghost predicate AllProper(rule: SchemaRule, items: seq<Json>)
  {
    forall k :: 0 <= k < |items| ==> ProperEntry(rule, items[k])
  }

  lemma AllProperLast(rule: SchemaRule, items: seq<Json>)
    requires items != []
    ensures AllProper(rule, items) <==> AllProper(rule, items[..|items| - 1]) && ProperEntry(rule, items[|items| - 1])
  {
    assert forall k :: 0 <= k < |items| - 1 ==> items[..|items| - 1][k] == items[k];
  }

  lemma {:induction false} EntriesErrors(rule: SchemaRule, list: string, items: seq<Json>)
    ensures NoError(EntriesIssues(rule, list, items)) <==> AllProper(rule, items)
  {
    if items != [] {
      var n := |items| - 1;
      var before, here := EntriesIssues(rule, list, items[..n]), EntryIssues(rule, list, n, items[n]);
      EntriesErrors(rule, list, items[..n]);
      EntryErrors(rule, list, n, items[n]);
      NoErrorConcat(before, here);
      AllProperLast(rule, items);
      assert EntriesIssues(rule, list, items) == before + here;
    }
  }

  /** `prop` is the rule's list property, missing from `d`, and `v` is a value of its type. */
  ghost predicate FillsList(lx: Lexer, rule: SchemaRule, d: Dict, prop: string, v: Json)
  {
    Fills(lx, rule.(listProperty := None), d, prop, v) && rule.listProperty == Some(prop)
  }

  /** The errors that do not say that `prop` is missing. */
  function OtherErrors(prop: string): Issue -> bool { i => IsError(i) && !SaysMissing(i, prop) }

  /** The errors of a rule are those of the rule without its list property, with those of the list entries
      somewhere in between. */
  lemma ErrorsSplit(lx: Lexer, rule: SchemaRule, d: Dict) returns (pre: seq<Issue>, post: seq<Issue>)
    ensures Filter(RuleIssues(lx, rule, d), IsError) == pre + Filter(ListIssues(rule, d), IsError) + post
    ensures Filter(RuleIssues(lx, rule.(listProperty := None), d), IsError) == pre + post
  {
    var a, b, c, o := MissingIn(d, rule.required, OnRequired()), MissingIn(d, rule.recommended, OnRecommended()),
                      TypeIssues(lx, rule.propertyTypes, d), ObjectIssues(rule.objectRecommended, d);
    FilterAppend5(a, b, c, ListIssues(rule, d), o, IsError);
    FilterAppend5(a, b, c, [], o, IsError);
    pre, post := Filter(a, IsError) + Filter(b, IsError) + Filter(c, IsError), Filter(o, IsError);
    assert pre + [] == pre;
  }

  lemma FillingListErrors(lx: Lexer, rule: SchemaRule, d: Dict, prop: string, v: Json) returns (pre: seq<Issue>, post: seq<Issue>)
    requires FillsList(lx, rule, d, prop, v)
    ensures pre + post == Filter(RuleIssues(lx, rule, d), OtherErrors(prop))
    ensures Filter(RuleIssues(lx, rule, d[prop := v]), IsError) == pre + Filter(ListIssues(rule, d[prop := v]), IsError) + post
  {
    var plain := rule.(listProperty := None);
    FillingRule(lx, plain, d, prop, v);
    MissingListIsSilent(lx, rule, d, prop);
    FilterSame(RuleIssues(lx, plain, d[prop := v]), IsError, i => IsError(i));
    FilterSame(RuleIssues(lx, plain, d), OtherErrors(prop), i => IsError(i) && !SaysMissing(i, prop));
    pre, post := ErrorsSplit(lx, rule, d[prop := v]);
  }

  lemma ListErrors(rule: SchemaRule, d: Dict, prop: string, v: Json)
    requires rule.listProperty == Some(prop)
    ensures NoError(ListIssues(rule, d[prop := v])) <==> ProperList(rule, prop, v)
  {
    if prop != "" && v.Arr? {
      EntriesErrors(rule, prop, v.items);
    }
  }

  lemma MissingListIsSilent(lx: Lexer, rule: SchemaRule, d: Dict, prop: string)
    requires IsMissing(d, prop) && rule.listProperty == Some(prop)
    ensures RuleIssues(lx, rule, d) == RuleIssues(lx, rule.(listProperty := None), d)
  {
    assert ListIssues(rule, d) == [];
  }

  lemma NoErrorFilter(issues: seq<Issue>)
    ensures Filter(issues, IsError) == [] <==> NoError(issues)
  {
    if NoError(issues) {
      FilterNone(issues, IsError);
    }
    forall i | i in issues && IsError(i) ensures i in Filter(issues, IsError) {
      FilterMember(issues, IsError, i);
    }
  }

  lemma RuledVerdict(lx: Lexer, rules: Rules, schemaType: string, d: Dict)
    requires PARSE_ERROR_KEY !in d && GetRule(lx, rules, schemaType).Some?
    ensures var rule := GetRule(lx, rules, schemaType).value;
            var issues := RuleIssues(lx, rule, d);
            Validate(lx, rules, Some(schemaType), d) ==
            Verdict(schemaType, NoError(issues), NoError(issues) && RichEligible(rule, d), issues)
  {
  }

  lemma RichAfterFilling(rule: SchemaRule, d: Dict, prop: string, v: Json)
    requires !IsMissing(d[prop := v], prop)
    ensures RichEligible(rule, d[prop := v]) <==> forall p :: p in rule.richRequired && p != prop ==> !IsMissing(d, p)
  {
  }

  lemma OtherErrorsFilter(issues: seq<Issue>, prop: string)
    ensures Filter(issues, OtherErrors(prop)) == [] <==> forall i :: i in issues && IsError(i) ==> SaysMissing(i, prop)
  {
    if forall i :: i in issues && IsError(i) ==> SaysMissing(i, prop) {
      FilterNone(issues, OtherErrors(prop));
    }
    forall i | i in issues && OtherErrors(prop)(i) ensures i in Filter(issues, OtherErrors(prop)) {
      FilterMember(issues, OtherErrors(prop), i);
    }
  }

  lemma ListVerdict(was: seq<Issue>, now: seq<Issue>, inner: seq<Issue>, pre: seq<Issue>, post: seq<Issue>, prop: string)
    requires pre + post == Filter(was, OtherErrors(prop))
    requires Filter(now, IsError) == pre + Filter(inner, IsError) + post
    ensures Filter(now, IsError) == Filter(was, OtherErrors(prop)) <==> NoError(inner)
    ensures NoError(now) <==> NoError(inner) && forall i :: i in was && IsError(i) ==> SaysMissing(i, prop)
  {
    NoErrorFilter(inner);
    NoErrorFilter(now);
    OtherErrorsFilter(was, prop);
    assert |pre + Filter(inner, IsError) + post| == |pre + post| + |Filter(inner, IsError)|;
    assert pre + [] + post == pre + post;
  }

  /** The list property: its entries are validated too, so filling it adds no error if and only if every
      entry is proper; then the object is valid if and only if nothing else was wrong. */
  lemma FillingTheListIff(lx: Lexer, rules: Rules, schemaType: string, d: Dict, prop: string, v: Json)
    requires PARSE_ERROR_KEY !in d && prop != PARSE_ERROR_KEY && GetRule(lx, rules, schemaType).Some?
    requires FillsList(lx, GetRule(lx, rules, schemaType).value, d, prop, v)
    ensures var rule := GetRule(lx, rules, schemaType).value;
            var was, now := Validate(lx, rules, Some(schemaType), d), Validate(lx, rules, Some(schemaType), d[prop := v]);
            && (Filter(now.issues, IsError) == Filter(was.issues, OtherErrors(prop)) <==> ProperList(rule, prop, v))
            && (now.isValid <==> ProperList(rule, prop, v) && forall i :: i in was.issues && IsError(i) ==> SaysMissing(i, prop))
            && (now.rich <==> now.isValid && forall p :: p in rule.richRequired && p != prop ==> !IsMissing(d, p))
  {
    var rule := GetRule(lx, rules, schemaType).value;
    var d' := d[prop := v];
    var pre, post := FillingListErrors(lx, rule, d, prop, v);
    ListVerdict(RuleIssues(lx, rule, d), RuleIssues(lx, rule, d'), ListIssues(rule, d'), pre, post, prop);
    ListErrors(rule, d, prop, v);
    RuledVerdict(lx, rules, schemaType, d);
    RuledVerdict(lx, rules, schemaType, d');
    RichAfterFilling(rule, d, prop, v);
  }

  /** An input on which filling the list property adds an error. */
  lemma FillingTheListCanFail(lx: Lexer)
    ensures var rule := SchemaRule([], [], [("items", Array)], [], Some("items"), None, [], [], []);
            var rules, d, v := [("T", rule)], map[], Arr([Null]);
            && IsMissing(d, "items") && !IsMissing(d["items" := v], "items") && TypeOk(lx, v, Array)
            && Validate(lx, rules, Some("T"), d).isValid && !Validate(lx, rules, Some("T"), d["items" := v]).isValid
  {
    var rule := SchemaRule([], [], [("items", Array)], [], Some("items"), None, [], [], []);
    var v := Arr([Null]);
    var d: Dict := map["items" := v];
    assert map[]["items" := v] == d;
    assert ExactRule([("T", rule)], "T") == Some(rule);
    var types := rule.propertyTypes;
    assert types[..0] == [] && v.items[..0] == [];
    assert ListIssues(rule, d) == EntriesIssues(rule, "items", v.items) == [Issue(Error, Entry("items", 0), NotAnObject)];
    assert Issue(Error, Entry("items", 0), NotAnObject) in RuleIssues(lx, rule, d);
    var e: Dict := map[];
    assert TypeIssues(lx, types, e) == TypeIssues(lx, types[..0], e) == [];
    assert RuleIssues(lx, rule, e) == [];
  }
}
