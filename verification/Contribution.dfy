/** The captured elements and the dicts that the extractors return: each dict is made of exactly the named
    properties of its scope, and what is captured can be found in the result. */
module Contribution {
  import opened Prelude
  import opened Json
  import opened PyText
  import opened Markup
  import opened Capture

  // ---------------------------------------------------------------------- one item and its members

  /** The value of the property element at `x`. */
  function ValueAt(syn: Syntax, root: Node, x: Path): Json
    requires Valid(root, x)
  {
    if ScopeAt(syn, root, x) then Obj(ScanItem(syn, root, x).obj) else LeafValue(syn, NodeAt(root, x).value)
  }

  /** The names and values that the element at a position brings. */
  function Brings(syn: Syntax, root: Node): Path -> seq<Pair>
  {
    (x: Path) => if Valid(root, x) then Named(Names(syn, NodeAt(root, x).value), ValueAt(syn, root, x)) else []
  }

  function MemberOf(syn: Syntax, root: Node, p: Path): Path -> bool
  {
    (x: Path) => IsNamed(syn, root, x) && NearestScope(syn, root, x) == Some(p)
  }

  /** The named properties of the item at `p`, in document order. */
  function Members(syn: Syntax, root: Node, p: Path): seq<Path>
    requires Valid(root, p)
  {
    Filter(Below(NodeAt(root, p).value, p), MemberOf(syn, root, p))
  }

  lemma MembersExact(syn: Syntax, root: Node, p: Path)
    requires Valid(root, p)
    ensures Distinct(Members(syn, root, p))
    ensures forall x :: x in Members(syn, root, p) <==> IsNamed(syn, root, x) && NearestScope(syn, root, x) == Some(p)
  {
    var xs := Below(NodeAt(root, p).value, p);
    BelowExact(root, p);
    FilterDistinct(xs, MemberOf(syn, root, p));
    forall x ensures x in Members(syn, root, p) <==> IsNamed(syn, root, x) && NearestScope(syn, root, x) == Some(p) {
      FilterMember(xs, MemberOf(syn, root, p), x);
      if NearestScope(syn, root, x) == Some(p) {
        NearestScopeIsAbove(syn, root, x);
      }
    }
  }

  lemma ScanOneBrings(syn: Syntax, root: Node, p: Path, x: Path)
    requires Valid(root, p)
    ensures PairsOf(ScanOne(syn, root, p, x)) == if MemberOf(syn, root, p)(x) then Brings(syn, root)(x) else []
  {
    var pieces := ScanOne(syn, root, p, x);
    if pieces != [] {
      assert pieces == [pieces[0]];
      FlatMapOne(pieces[0], PairsIn());
    }
  }

  lemma {:induction false} ScanBrings(syn: Syntax, root: Node, p: Path, xs: seq<Path>)
    requires Valid(root, p)
    ensures PairsOf(ScanPieces(syn, root, p, xs)) == FlatMap(Filter(xs, MemberOf(syn, root, p)), Brings(syn, root))
  {
    if xs != [] {
      var rest, x := xs[..|xs| - 1], xs[|xs| - 1];
      ScanBrings(syn, root, p, rest);
      ScanOneBrings(syn, root, p, x);
      FlatMapAppend(ScanPieces(syn, root, p, rest), ScanOne(syn, root, p, x), PairsIn());
      FlatFilterStep(xs, MemberOf(syn, root, p), Brings(syn, root));
    }
  }

  /** A returned dict is its type and what its members bring, in document order, and nothing else. */
  lemma ItemIsItsMembers(syn: Syntax, root: Node, p: Path)
    requires ScopeAt(syn, root, p)
    ensures var pairs := TypePairs(syn, NodeAt(root, p).value) + FlatMap(Members(syn, root, p), Brings(syn, root));
            ScanItem(syn, root, p).obj == AssignAll(pairs) && ItemPairs(syn, NodeAt(root, p).value, p) == pairs
  {
    var n := NodeAt(root, p).value;
    ScanBrings(syn, root, p, Below(n, p));
    ScanBelow(syn, root, p, p);
    ScanPiecesFlat(syn, root, p, Below(n, p));
  }

  /** The values that an element gives to `name`: its value, as often as it carries the name. */
  function ValuesFor(syn: Syntax, root: Node, name: string): Path -> seq<Json>
  {
    (x: Path) =>
      if Valid(root, x) then Copies(ValueAt(syn, root, x), Names(syn, NodeAt(root, x).value), name) else []
  }

  function Copies(v: Json, names: seq<string>, name: string): seq<Json>
  {
    FlatMap(names, (n: string) => if n == name then [v] else [])
  }

  lemma {:induction false} ValuesOfConcat(a: seq<Pair>, b: seq<Pair>, name: string)
    ensures ValuesOf(a + b, name) == ValuesOf(a, name) + ValuesOf(b, name)
    decreases |b|
  {
    if b == [] {
      assert a + b == a;
    } else {
      assert (a + b)[..|a + b| - 1] == a + b[..|b| - 1];
      ValuesOfConcat(a, b[..|b| - 1], name);
    }
  }

  lemma {:induction false} ValuesOfNamed(names: seq<string>, v: Json, name: string)
    ensures ValuesOf(Named(names, v), name) == Copies(v, names, name)
  {
    if names != [] {
      var n := |names| - 1;
      assert Named(names, v)[..n] == Named(names[..n], v);
      ValuesOfNamed(names[..n], v, name);
    }
  }

  lemma {:induction false} ValuesOfMembers(syn: Syntax, root: Node, xs: seq<Path>, name: string)
    ensures ValuesOf(FlatMap(xs, Brings(syn, root)), name) == FlatMap(xs, ValuesFor(syn, root, name))
  {
    if xs != [] {
      var rest, x := xs[..|xs| - 1], xs[|xs| - 1];
      ValuesOfMembers(syn, root, rest, name);
      ValuesOfConcat(FlatMap(rest, Brings(syn, root)), Brings(syn, root)(x), name);
      if Valid(root, x) {
        ValuesOfNamed(Names(syn, NodeAt(root, x).value), ValueAt(syn, root, x), name);
      }
    }
  }

  /** The whole of a returned dict: under each name it has, in document order, the value of each named
      property of its scope that carries the name; under "@type" the short type comes first. */
  lemma ItemValues(syn: Syntax, root: Node, p: Path, name: string)
    requires ScopeAt(syn, root, p)
    ensures var obj := ScanItem(syn, root, p).obj;
            var t := ShortType(Attr(NodeAt(root, p).value, syn.typeAttr));
            && ValuesUnder(obj, name) ==
               (if name == "@type" && t.Some? then [Str(t.value)] else [])
               + FlatMap(Members(syn, root, p), ValuesFor(syn, root, name))
            && (name in obj <==> ValuesUnder(obj, name) != [])
            && (name in obj && |ValuesUnder(obj, name)| == 1 ==> obj[name] == ValuesUnder(obj, name)[0])
  {
    var n := NodeAt(root, p).value;
    ItemIsItsMembers(syn, root, p);
    TypeComesFirst(syn, n, FlatMap(Members(syn, root, p), Brings(syn, root)), name);
    ValuesOfMembers(syn, root, Members(syn, root, p), name);
    CollectedValues(syn, root, p, name);
  }

  lemma TypeComesFirst(syn: Syntax, n: Node, more: seq<Pair>, name: string)
    ensures var t := ShortType(Attr(n, syn.typeAttr));
            ValuesOf(TypePairs(syn, n) + more, name) ==
            (if name == "@type" && t.Some? then [Str(t.value)] else []) + ValuesOf(more, name)
  {
    var typed := TypePairs(syn, n);
    ValuesOfConcat(typed, more, name);
    if typed != [] {
      assert typed[..0] == [] && ValuesOf(typed[..0], name) == [];
    }
  }

  lemma CollectedValues(syn: Syntax, root: Node, p: Path, name: string)
    requires ScopeAt(syn, root, p)
    ensures var obj := ScanItem(syn, root, p).obj;
            var vs := ValuesOf(ItemPairs(syn, NodeAt(root, p).value, p), name);
            && ValuesUnder(obj, name) == vs && (name in obj <==> vs != []) && (|vs| == 1 ==> obj[name] == vs[0])
  {
    var n := NodeAt(root, p).value;
    ScanIsTree(syn, root, p);
    DirectHasNoLists(syn, Kids(n), p);
    PairsHaveNoLists(Direct(syn, Kids(n), p));
    AssignAllCollects(ItemPairs(syn, n, p), name);
  }

  // ------------------------------------------------------------- what is captured is in the result

  /** `v` is the value of `name`, or one of its values. */
  predicate Holds(d: Dict, name: string, v: Json)
  {
    name in d && (d[name] == v || (d[name].Arr? && v in d[name].items))
  }

  /** Each dict holds the next one under the name in between. */
  ghost predicate IsRoute(dicts: seq<Dict>, names: seq<string>)
  {
    |dicts| == |names| + 1 && forall k :: 0 <= k < |names| ==> Holds(dicts[k], names[k], Obj(dicts[k + 1]))
  }

  /** Some names lead from `a` to `b`, through single values or list elements. */
  ghost predicate Leads(a: Dict, b: Dict)
  {
    exists dicts, names :: IsRoute(dicts, names) && dicts[0] == a && dicts[|names|] == b
  }

  lemma LeadsOn(a: Dict, mid: Dict, name: string, b: Dict)
    requires Leads(a, mid) && Holds(mid, name, Obj(b))
    ensures Leads(a, b)
  {
    var dicts, names :| IsRoute(dicts, names) && dicts[0] == a && dicts[|names|] == mid;
    assert IsRoute(dicts + [b], names + [name]);
  }

  lemma LeadsToItself(a: Dict)
    ensures Leads(a, a)
  {
    assert IsRoute([a], []);
  }

  lemma {:induction false} ValuesMember(pairs: seq<Pair>, name: string, v: Json)
    requires (name, v) in pairs
    ensures v in ValuesOf(pairs, name)
  {
    var n := |pairs| - 1;
    if pairs[n] != (name, v) {
      assert (name, v) in pairs[..n];
      ValuesMember(pairs[..n], name, v);
    }
  }

  /** Each name of a named property leads to its value in the dict of its scope. */
  lemma MemberIsHeld(syn: Syntax, root: Node, p: Path, x: Path, name: string)
    requires IsNamed(syn, root, x) && NearestScope(syn, root, x) == Some(p) && name in Names(syn, NodeAt(root, x).value)
    ensures ScopeAt(syn, root, p) && Holds(ScanItem(syn, root, p).obj, name, ValueAt(syn, root, x))
  {
    var f, v := Brings(syn, root), ValueAt(syn, root, x);
    NearestScopeIsAbove(syn, root, x);
    MembersExact(syn, root, p);
    ItemIsItsMembers(syn, root, p);
    assert (name, v) in f(x) by {
      var names := Names(syn, NodeAt(root, x).value);
      var k :| 0 <= k < |names| && names[k] == name;
      assert Named(names, v)[k] == (name, v);
    }
    FlatMapMember(Members(syn, root, p), f, x, (name, v));
    PairIsHeld(syn, root, p, name, v);
  }

  lemma PairIsHeld(syn: Syntax, root: Node, p: Path, name: string, v: Json)
    requires ScopeAt(syn, root, p) && (name, v) in ItemPairs(syn, NodeAt(root, p).value, p)
    ensures Holds(ScanItem(syn, root, p).obj, name, v)
  {
    ValuesMember(ItemPairs(syn, NodeAt(root, p).value, p), name, v);
    ItemCollects(syn, root, p, name);
  }

  /** From the outermost item, a chain of named properties leads to the dict of every kept item. */
  lemma {:induction false} KeptIsReachable(syn: Syntax, root: Node, t: Path)
    requires ScopeAt(syn, root, t) && Kept(syn, root, t)
    ensures ScopeAt(syn, root, TopOf(syn, root, t))
    ensures Leads(ScanItem(syn, root, TopOf(syn, root, t)).obj, ScanItem(syn, root, t).obj)
    decreases |t|
  {
    if NearestScope(syn, root, t).None? {
      LeadsToItself(ScanItem(syn, root, t).obj);
      return;
    }
    var up := NearestScope(syn, root, t).value;
    NearestScopeIsAbove(syn, root, t);
    TopIsOuter(syn, root, up);
    KeptIsReachable(syn, root, up);
    var name := Names(syn, NodeAt(root, t).value)[0];
    MemberIsHeld(syn, root, up, t, name);
    LeadsOn(ScanItem(syn, root, TopOf(syn, root, t)).obj, ScanItem(syn, root, up).obj, name, ScanItem(syn, root, t).obj);
  }

  lemma {:induction false} TopIsTop(syn: Syntax, root: Node, t: Path)
    requires ScopeAt(syn, root, t)
    ensures ScopeAt(syn, root, TopOf(syn, root, t)) && NearestScope(syn, root, TopOf(syn, root, t)).None?
    decreases |t|
  {
    if NearestScope(syn, root, t).Some? {
      NearestScopeIsAbove(syn, root, t);
      TopIsTop(syn, root, NearestScope(syn, root, t).value);
    }
  }

  /** What is captured is in the result: one of the returned dicts leads, by named properties, to the dict
      of the item, and there every name of the element leads to its value. */
  lemma CapturedIsReturned(syn: Syntax, root: Node, c: Captured)
    requires !IsScope(syn, root) && c in Captures(Extracted(syn, root))
    ensures ScopeAt(syn, root, c.top) && ScopeAt(syn, root, c.item) && Valid(root, c.prop)
    ensures ScanItem(syn, root, c.top).obj in Objects(Extracted(syn, root))
    ensures Leads(ScanItem(syn, root, c.top).obj, ScanItem(syn, root, c.item).obj)
    ensures Names(syn, NodeAt(root, c.prop).value) != []
    ensures forall name :: name in Names(syn, NodeAt(root, c.prop).value) ==>
              Holds(ScanItem(syn, root, c.item).obj, name, ValueAt(syn, root, c.prop))
  {
    Conservation(syn, root);
    NearestScopeIsAbove(syn, root, c.prop);
    KeptIsReachable(syn, root, c.item);
    TopIsTop(syn, root, c.item);
    TopIsExtracted(syn, root, c.top);
    forall name | name in Names(syn, NodeAt(root, c.prop).value)
      ensures Holds(ScanItem(syn, root, c.item).obj, name, ValueAt(syn, root, c.prop))
    {
      MemberIsHeld(syn, root, c.item, c.prop, name);
    }
  }

  /** The other direction: the dict of a kept item consists of captured properties only. */
  lemma KeptMembersAreCaptured(syn: Syntax, root: Node, p: Path, x: Path)
    requires !IsScope(syn, root) && ScopeAt(syn, root, p) && Kept(syn, root, p)
    ensures x in Members(syn, root, p) <==> Captured(TopOf(syn, root, p), p, x) in Captures(Extracted(syn, root))
  {
    MembersExact(syn, root, p);
    Conservation(syn, root);
  }

  // ------------------------------------------------------------------ which positions are returned

  /** An outermost scope. */
  predicate IsTop(syn: Syntax, root: Node, x: Path)
  {
    x != [] && ScopeAt(syn, root, x) && NearestScope(syn, root, x).None?
  }

  function Positions(tops: seq<Top>): seq<Path>
  {
    seq(|tops|, k requires 0 <= k < |tops| => tops[k].at)
  }

  function TopTest(syn: Syntax, root: Node): Path -> bool
  {
    (x: Path) => ScopeAt(syn, root, x) && NearestScope(syn, root, x).None?
  }

  lemma PositionsConcat(a: seq<Top>, b: seq<Top>)
    ensures Positions(a + b) == Positions(a) + Positions(b)
  {
  }

  lemma {:induction false} SelectionPositions(syn: Syntax, root: Node, xs: seq<Path>)
    ensures Positions(FlatMap(xs, TopAt(syn, root))) == Filter(xs, TopTest(syn, root))
  {
    if xs != [] {
      var rest, x, f := xs[..|xs| - 1], xs[|xs| - 1], TopAt(syn, root);
      SelectionPositions(syn, root, rest);
      PositionsConcat(FlatMap(rest, f), f(x));
      assert Positions(f(x)) == if TopTest(syn, root)(x) then [x] else [];
    }
  }

  lemma {:induction false} SelectionItems(syn: Syntax, root: Node, xs: seq<Path>)
    ensures forall t :: t in FlatMap(xs, TopAt(syn, root)) ==> ScopeAt(syn, root, t.at) && t.item == ScanItem(syn, root, t.at)
  {
    if xs != [] {
      SelectionItems(syn, root, xs[..|xs| - 1]);
    }
  }

  /** The returned items are those of the outermost scopes, each of them once. */
  lemma TopsExact(syn: Syntax, root: Node)
    ensures var tops := Extracted(syn, root);
            && Distinct(Positions(tops))
            && (forall x :: x in Positions(tops) <==> IsTop(syn, root, x))
            && (forall t :: t in tops ==> IsTop(syn, root, t.at) && t.item == ScanItem(syn, root, t.at))
  {
    var xs, p := Below(root, []), TopTest(syn, root);
    var tops := Extracted(syn, root);
    BelowExact(root, []);
    SelectionPositions(syn, root, xs);
    SelectionItems(syn, root, xs);
    FilterDistinct(xs, p);
    forall x ensures x in Positions(tops) <==> IsTop(syn, root, x) {
      FilterMember(xs, p, x);
      assert x != [] ==> x[..0] == [];
    }
    forall t | t in tops ensures IsTop(syn, root, t.at) {
      var k :| 0 <= k < |tops| && tops[k] == t;
      assert Positions(tops)[k] == t.at;
    }
  }

  lemma TopIsExtracted(syn: Syntax, root: Node, x: Path)
    requires IsTop(syn, root, x)
    ensures ScanItem(syn, root, x).obj in Objects(Extracted(syn, root))
  {
    var tops := Extracted(syn, root);
    TopsExact(syn, root);
    var k :| 0 <= k < |tops| && Positions(tops)[k] == x;
    assert tops[k] in tops && Objects(tops)[k] == ScanItem(syn, root, x).obj;
  }

  predicate IsTyped(syn: Syntax, root: Node, x: Path)
  {
    Valid(root, x) && Attr(NodeAt(root, x).value, syn.typeAttr).Some?
  }

  /** The documented selection: outermost scopes that also carry the type attribute. */
  function Documented(syn: Syntax, root: Node): seq<Top>
  {
    Filter(Extracted(syn, root), TypedTop(syn, root))
  }

  function TypedTop(syn: Syntax, root: Node): Top -> bool { (t: Top) => IsTyped(syn, root, t.at) }

  /** The program returns the documented items if and only if every outermost scope is typed; otherwise it
      returns more. */
  lemma DocumentedIff(syn: Syntax, root: Node)
    ensures Objects(Extracted(syn, root)) == Objects(Documented(syn, root))
            <==> forall x :: IsTop(syn, root, x) ==> IsTyped(syn, root, x)
    ensures |Documented(syn, root)| <= |Extracted(syn, root)|
  {
    var tops, p := Extracted(syn, root), TypedTop(syn, root);
    TopsExact(syn, root);
    AllTyped(syn, root, tops);
    SameObjects(tops, p);
  }

  lemma AllTyped(syn: Syntax, root: Node, tops: seq<Top>)
    requires forall x :: x in Positions(tops) <==> IsTop(syn, root, x)
    ensures (forall t :: t in tops ==> IsTyped(syn, root, t.at)) <==> forall x :: IsTop(syn, root, x) ==> IsTyped(syn, root, x)
  {
    forall t | t in tops ensures IsTop(syn, root, t.at) {
      var k :| 0 <= k < |tops| && tops[k] == t;
      assert Positions(tops)[k] == t.at;
    }
    forall x | IsTop(syn, root, x) ensures exists t :: t in tops && t.at == x {
      var k :| 0 <= k < |tops| && Positions(tops)[k] == x;
      assert tops[k] in tops;
    }
  }

  /** Dropping some of the items shows in the returned list. */
  lemma SameObjects(tops: seq<Top>, p: Top -> bool)
    ensures |Filter(tops, p)| <= |tops|
    ensures Objects(tops) == Objects(Filter(tops, p)) <==> forall t :: t in tops ==> p(t)
  {
    FilterWhole(tops, p);
    assert |Objects(tops)| == |tops| && |Objects(Filter(tops, p))| == |Filter(tops, p)|;
  }

  // ------------------------------------------------------------------------------ two small pages

  /** A page with one untyped scope in which nothing is named. */
  lemma OneScopePage(syn: Syntax, page: Node, div: Node)
    requires page == Element("html", map[], [div]) && IsScope(syn, div) && Attr(div, syn.typeAttr).None?
    requires PairsOf(Direct(syn, div.children, [0])) == []
    ensures Objects(Extracted(syn, page)) == [map[]]
    ensures !IsTyped(syn, page, [0]) && Documented(syn, page) == []
  {
    var tops, top, p := Extracted(syn, page), Top([0], ItemTree(syn, div, [0])), [0];
    ExtractedIsOutermost(syn, page);
    assert page.children[..0] == [] && TopsKids(syn, page.children[..0], []) == [];
    assert tops == [top];
    assert top.item.obj == AssignAll([]) == map[];
    assert p[..0] == [] && NodeAt(page, p) == Some(div);
    assert tops[..0] == [] && Filter(tops[..0], TypedTop(syn, page)) == [];
  }

  /** A page holding one scope without a type: its empty item is returned all the same. */
  lemma UntypedItemIsReturned(syn: Syntax)
    requires syn.typeAttr != syn.scopeAttr
    ensures var page := Element("html", map[], [Element("div", map[syn.scopeAttr := ""], [])]);
            Objects(Extracted(syn, page)) == [map[]] && Documented(syn, page) == []
  {
    var div := Element("div", map[syn.scopeAttr := ""], []);
    OneScopePage(syn, Element("html", map[], [div]), div);
  }

  /** A page holding one scope with one nameless property: nothing of the property is returned. */
  lemma NamelessPropertyIsLost(syn: Syntax, text: string)
    requires syn.propAttr != syn.scopeAttr && syn.typeAttr != syn.propAttr && syn.typeAttr != syn.scopeAttr
    ensures var span := Element("span", map[syn.propAttr := ""], [Text(text)]);
            var page := Element("html", map[], [Element("div", map[syn.scopeAttr := ""], [span])]);
            && PropAt(syn, page, [0, 0]) && NearestScope(syn, page, [0, 0]) == Some([0]) && !IsNamed(syn, page, [0, 0])
            && Objects(Extracted(syn, page)) == [map[]]
  {
    var span := Element("span", map[syn.propAttr := ""], [Text(text)]);
    var div := Element("div", map[syn.scopeAttr := ""], [span]);
    assert Words("") == [];
    NamelessOn(syn, Element("html", map[], [div]), div, span);
  }

  lemma NamelessOn(syn: Syntax, page: Node, div: Node, span: Node)
    requires page == Element("html", map[], [div]) && div.Element? && div.children == [span]
    requires IsScope(syn, div) && Attr(div, syn.typeAttr).None?
    requires IsProp(syn, span) && !IsScope(syn, span) && Names(syn, span) == []
    requires |span.children| == 1 && span.children[0].Text?
    ensures PropAt(syn, page, [0, 0]) && NearestScope(syn, page, [0, 0]) == Some([0]) && !IsNamed(syn, page, [0, 0])
    ensures Objects(Extracted(syn, page)) == [map[]]
  {
    NestedPage(syn, page, div, span);
    NamelessIsEmpty(syn, span, [0, 0]);
    OnlyChild(syn, div.children, [0]);
    assert [0] + [0] == [0, 0];
    OneScopePage(syn, page, div);
  }

  lemma NestedPage(syn: Syntax, page: Node, div: Node, span: Node)
    requires page == Element("html", map[], [div]) && div.Element? && div.children == [span] && IsScope(syn, div)
    ensures NodeAt(page, [0]) == Some(div) && NodeAt(page, [0, 0]) == Some(span)
    ensures NearestScope(syn, page, [0, 0]) == Some([0])
  {
    var p, q := [0], [0, 0];
    assert p[..0] == [] && NodeAt(page, p) == Some(div);
    assert q[..1] == p && NodeAt(page, q) == Some(span);
  }

  lemma OnlyChild(syn: Syntax, kids: seq<Node>, q: Path)
    requires |kids| == 1
    ensures Direct(syn, kids, q) == DirectNode(syn, kids[0], q + [0])
  {
    assert kids[..0] == [] && Direct(syn, kids[..0], q) == [];
  }

  lemma NamelessIsEmpty(syn: Syntax, span: Node, q: Path)
    requires span.Element? && |span.children| == 1 && span.children[0].Text? && IsProp(syn, span) && !IsScope(syn, span)
    requires Names(syn, span) == []
    ensures PairsOf(DirectNode(syn, span, q)) == []
  {
    var pieces := [PieceTree(syn, span, q)];
    OnlyChild(syn, span.children, q);
    assert DirectNode(syn, span, q) == pieces;
    FlatMapOne(pieces[0], PairsIn());
  }
}
