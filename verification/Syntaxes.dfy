/** The two concrete syntaxes, Microdata and RDFa, and what the general results say about them. */
module Syntaxes {
  import opened Prelude
  import opened PyText
  import opened Json
  import opened Markup
  import opened Capture
  import opened Contribution

  /** `get_text(strip=True)`: the stripped text nodes, joined. */
  function TextOf(n: Node): string
    decreases n, 1
  {
    match n
    case Text(t) => Strip(t)
    case Element(_, _, children) => TextOfAll(children)
  }

  function TextOfAll(ns: seq<Node>): string
    decreases ns, 0
  {
    if ns == [] then "" else TextOfAll(ns[..|ns| - 1]) + TextOf(ns[|ns| - 1])
  }

  /** The attribute that carries a Microdata value, by element name. */
  const VALUE_ATTRS := map[
    "meta" := "content", "a" := "href", "link" := "href", "area" := "href", "img" := "src",
    "audio" := "src", "video" := "src", "source" := "src", "iframe" := "src", "embed" := "src",
    "track" := "src", "object" := "data", "data" := "value", "time" := "datetime"]

  /** The first of the attributes that is present, stripped, else the text. */
  function FirstAttr(n: Node, attrs: seq<string>): string
  {
    if attrs == [] then TextOf(n)
    else
      match Attr(n, attrs[0])
      case Some(v) => Strip(v)
      case None => FirstAttr(n, attrs[1..])
  }

  function MicrodataValue(n: Node): string
  {
    var own := if n.Element? && n.name in VALUE_ATTRS then [VALUE_ATTRS[n.name]] else [];
    FirstAttr(n, own + ["content"])
  }

  function RdfaValue(n: Node): string
  {
    var own := ["content", "resource", "href", "src"];
    FirstAttr(n, if n.Element? && n.name == "time" then own + ["datetime"] else own)
  }

  function RdfaName(name: string): string
  {
    match ShortType(Some(name)) case Some(t) => t case None => name
  }

  const MICRODATA := Syntax("itemscope", "itemtype", "itemprop", name => name, MicrodataValue)
  const RDFA := Syntax("typeof", "typeof", "property", RdfaName, RdfaValue)

  // --------------------------------------------------------------------- the values, spelled out

  /** The stripped text of a text node. */
  function OwnText(root: Node): Path -> string
  {
    (x: Path) => if Valid(root, x) && NodeAt(root, x).value.Text? then Strip(NodeAt(root, x).value.text) else ""
  }

  /** The text of an element is that of the text nodes among its descendants, in document order. */
  lemma {:induction false} TextIsDescendants(root: Node, q: Path)
    requires Valid(root, q) && NodeAt(root, q).value.Element?
    ensures TextOf(NodeAt(root, q).value) == FlatMap(Below(NodeAt(root, q).value, q), OwnText(root))
    decreases NodeAt(root, q).value, 1
  {
    var n := NodeAt(root, q).value;
    TextOfKids(root, q, |n.children|);
    assert n.children[..|n.children|] == n.children;
  }

  lemma {:induction false} TextOfKids(root: Node, q: Path, k: nat)
    requires Valid(root, q) && k <= |Kids(NodeAt(root, q).value)|
    ensures var kids := Kids(NodeAt(root, q).value)[..k];
            Yields(BelowKids(kids, q), OwnText(root), true, TextOfAll(kids))
    decreases NodeAt(root, q).value, 0, k
  {
    if k > 0 {
      var kids := Kids(NodeAt(root, q).value);
      var x := q + [k - 1];
      assert x[..|q|] == q && NodeAt(root, x) == Some(kids[k - 1]);
      TextOfKids(root, q, k - 1);
      TextOfKid(root, x);
      TextStep(kids, q, k, OwnText(root));
    }
  }

  lemma TextStep(kids: seq<Node>, q: Path, k: nat, f: Path -> string)
    requires 0 < k <= |kids|
    requires Yields(BelowKids(kids[..k - 1], q), f, true, TextOfAll(kids[..k - 1]))
    requires var n, x := kids[k - 1], q + [k - 1]; Yields([x] + Below(n, x), f, true, TextOf(n))
    ensures Yields(BelowKids(kids[..k], q), f, true, TextOfAll(kids[..k]))
  {
    YieldingIsAdditive(f, true);
    OneMoreText(kids, q, k, Yielding(f, true));
  }

  lemma OneMoreText(kids: seq<Node>, q: Path, k: nat, r: (seq<Path>, string) -> bool)
    requires 0 < k <= |kids| && Additive(r)
    requires r(BelowKids(kids[..k - 1], q), TextOfAll(kids[..k - 1]))
    requires var n, x := kids[k - 1], q + [k - 1]; r([x] + Below(n, x), TextOf(n))
    ensures r(BelowKids(kids[..k], q), TextOfAll(kids[..k]))
  {
    BelowKidsStep(kids, q, k);
    TextOfAllStep(kids, k);
  }

  lemma TextOfAllStep(kids: seq<Node>, k: nat)
    requires 0 < k <= |kids|
    ensures TextOfAll(kids[..k]) == TextOfAll(kids[..k - 1]) + TextOf(kids[k - 1])
  {
    assert kids[..k][..k - 1] == kids[..k - 1];
  }

  lemma {:induction false} TextOfKid(root: Node, x: Path)
    requires Valid(root, x)
    ensures var n := NodeAt(root, x).value; Yields([x] + Below(n, x), OwnText(root), true, TextOf(n))
    decreases NodeAt(root, x).value, 2
  {
    var n, f := NodeAt(root, x).value, OwnText(root);
    FlatMapAppend([x], Below(n, x), f);
    FlatMapOne(x, f);
    if n.Element? {
      TextIsDescendants(root, x);
    }
  }

  /** `n` is an element of one of these names that carries the attribute `a`. */
  predicate Has(n: Node, names: set<string>, a: string) { n.Element? && n.name in names && a in n.attrs }

  predicate HasOwn(n: Node)
  {
    Has(n, {"a", "link", "area"}, "href")
    || Has(n, {"img", "audio", "video", "source", "iframe", "embed", "track"}, "src")
    || Has(n, {"object"}, "data") || Has(n, {"data"}, "value") || Has(n, {"time"}, "datetime")
  }

  lemma OwnAttrs(name: string)
    ensures name in {"a", "link", "area"} ==> name in VALUE_ATTRS && VALUE_ATTRS[name] == "href"
    ensures name in {"img", "audio", "video", "source", "iframe", "embed", "track"} ==> name in VALUE_ATTRS && VALUE_ATTRS[name] == "src"
    ensures name == "object" ==> name in VALUE_ATTRS && VALUE_ATTRS[name] == "data"
    ensures name == "data" ==> name in VALUE_ATTRS && VALUE_ATTRS[name] == "value"
    ensures name == "time" ==> name in VALUE_ATTRS && VALUE_ATTRS[name] == "datetime"
    ensures name == "meta" ==> name in VALUE_ATTRS && VALUE_ATTRS[name] == "content"
    ensures name in VALUE_ATTRS ==>
              name in {"a", "link", "area", "img", "audio", "video", "source", "iframe", "embed", "track", "object", "data", "time", "meta"}
  {
  }

  lemma OwnIsKnown(n: Node)
    requires n.Element? && n.name in VALUE_ATTRS && VALUE_ATTRS[n.name] in n.attrs
    ensures HasOwn(n) || VALUE_ATTRS[n.name] == "content"
  {
    OwnAttrs(n.name);
    if n.name in {"a", "link", "area"} {
    } else if n.name in {"img", "audio", "video", "source", "iframe", "embed", "track"} {
    } else if n.name == "object" || n.name == "data" || n.name == "time" {
    } else {
      assert n.name == "meta";
    }
  }

  /** The Microdata value of an element: the attribute that its name calls for, else `content`, else its text. */
  lemma MicrodataValueIs(n: Node)
    requires n.Element?
    ensures Has(n, {"a", "link", "area"}, "href") ==> MicrodataValue(n) == Strip(n.attrs["href"])
    ensures Has(n, {"img", "audio", "video", "source", "iframe", "embed", "track"}, "src") ==>
              MicrodataValue(n) == Strip(n.attrs["src"])
    ensures Has(n, {"object"}, "data") ==> MicrodataValue(n) == Strip(n.attrs["data"])
    ensures Has(n, {"data"}, "value") ==> MicrodataValue(n) == Strip(n.attrs["value"])
    ensures Has(n, {"time"}, "datetime") ==> MicrodataValue(n) == Strip(n.attrs["datetime"])
    ensures !HasOwn(n) ==> MicrodataValue(n) == if "content" in n.attrs then Strip(n.attrs["content"]) else TextOf(n)
  {
    OwnAttrs(n.name);
    if n.name in VALUE_ATTRS && VALUE_ATTRS[n.name] in n.attrs {
      OwnIsKnown(n);
    }
    var own := if n.name in VALUE_ATTRS then [VALUE_ATTRS[n.name]] else [];
    FirstOfTwo(n, own, "content");
    assert MicrodataValue(n) == FirstAttr(n, own + ["content"]);
    assert own == [] || own[0] !in n.attrs || HasOwn(n) || own[0] == "content";
  }

  lemma FirstOfTwo(n: Node, own: seq<string>, last: string)
    requires n.Element? && |own| <= 1
    ensures FirstAttr(n, own + [last]) ==
            if own != [] && own[0] in n.attrs then Strip(n.attrs[own[0]])
            else if last in n.attrs then Strip(n.attrs[last]) else TextOf(n)
  {
    var one := [last];
    assert one[1..] == [];
    FirstAttrStep(n, one);
    if own != [] {
      assert (own + one)[1..] == one;
      FirstAttrStep(n, own + one);
    } else {
      assert own + one == one;
    }
  }

  /** The RDFa value: `content`, `resource`, `href`, `src`, for a `time` element `datetime`, else the text. */
  lemma RdfaValueIs(n: Node)
    requires n.Element?
    ensures RdfaValue(n) ==
            if "content" in n.attrs then Strip(n.attrs["content"])
            else if "resource" in n.attrs then Strip(n.attrs["resource"])
            else if "href" in n.attrs then Strip(n.attrs["href"])
            else if "src" in n.attrs then Strip(n.attrs["src"])
            else if n.name == "time" && "datetime" in n.attrs then Strip(n.attrs["datetime"])
            else TextOf(n)
  {
    var own := ["content", "resource", "href", "src"];
    var all := if n.name == "time" then own + ["datetime"] else own;
    assert all[0] == "content" && all[1..][0] == "resource" && all[1..][1..][0] == "href" && all[1..][1..][1..][0] == "src";
    var rest := all[1..][1..][1..][1..];
    assert rest == if n.name == "time" then ["datetime"] else [];
    assert n.name == "time" ==> rest[1..] == [];
    FirstAttrStep(n, all);
    FirstAttrStep(n, all[1..]);
    FirstAttrStep(n, all[1..][1..]);
    FirstAttrStep(n, all[1..][1..][1..]);
  }

  lemma FirstAttrStep(n: Node, attrs: seq<string>)
    requires n.Element? && attrs != []
    ensures FirstAttr(n, attrs) == if attrs[0] in n.attrs then Strip(n.attrs[attrs[0]]) else FirstAttr(n, attrs[1..])
  {
  }

  // ------------------------------------------------------------------- the general results, twice

  method ExtractMicrodata(root: Node) returns (items: seq<Dict>)
    ensures items == Objects(Extracted(MICRODATA, root))
    ensures !Carries(root, [], "itemscope") ==> items == Objects(TopsKids(MICRODATA, Kids(root), []))
  {
    items := Extract(MICRODATA, root);
    if !IsScope(MICRODATA, root) {
      ExtractedIsOutermost(MICRODATA, root);
    }
  }

  method ExtractRdfa(root: Node) returns (items: seq<Dict>)
    ensures items == Objects(Extracted(RDFA, root))
    ensures !Carries(root, [], "typeof") ==> items == Objects(TopsKids(RDFA, Kids(root), []))
  {
    items := Extract(RDFA, root);
    if !IsScope(RDFA, root) {
      ExtractedIsOutermost(RDFA, root);
    }
  }

  /** The node at `p` is an element with attribute `a`. */
  predicate Carries(root: Node, p: Path, a: string)
  {
    Valid(root, p) && Attr(NodeAt(root, p).value, a).Some?
  }

  /** The attribute `a` of the element at `p` lists at least one word. */
  predicate Lists(root: Node, p: Path, a: string)
  {
    Carries(root, p, a) && Words(Attr(NodeAt(root, p).value, a).value) != []
  }

  /** Some proper ancestor carries `a`. */
  ghost predicate Inside(root: Node, p: Path, a: string)
  {
    exists s :: Under(s, p) && Carries(root, s, a)
  }

  /** The element at `x` has its value in an extracted item. */
  ghost predicate IsCaptured(syn: Syntax, root: Node, x: Path)
  {
    exists c :: c in Captures(Extracted(syn, root)) && c.prop == x
  }

  lemma InsideIsScoped(syn: Syntax, root: Node, p: Path)
    ensures Inside(root, p, syn.scopeAttr) <==> NearestScope(syn, root, p).Some?
  {
    if NearestScope(syn, root, p).Some? {
      NearestScopeIsAbove(syn, root, p);
      assert Carries(root, NearestScope(syn, root, p).value, syn.scopeAttr);
    }
    if s :| Under(s, p) && Carries(root, s, syn.scopeAttr) {
      NearestWithin(syn, root, s, p);
    }
  }

  lemma UnnamedSpelledOut(syn: Syntax, root: Node, s: Path)
    ensures Unnamed(syn, root, s)
            <==> Carries(root, s, syn.scopeAttr) && Inside(root, s, syn.scopeAttr) && !Lists(root, s, syn.propAttr)
  {
    InsideIsScoped(syn, root, s);
  }

  lemma CaptureSpelledOut(syn: Syntax, root: Node, x: Path)
    requires !IsScope(syn, root)
    ensures IsCaptured(syn, root, x)
            <==> Lists(root, x, syn.propAttr) && Inside(root, x, syn.scopeAttr)
                 && forall s :: Under(s, x) && Carries(root, s, syn.scopeAttr) && Inside(root, s, syn.scopeAttr) ==>
                      Lists(root, s, syn.propAttr)
  {
    CapturedIff(syn, root, x);
    InsideIsScoped(syn, root, x);
    forall s ensures Unnamed(syn, root, s)
        <==> Carries(root, s, syn.scopeAttr) && Inside(root, s, syn.scopeAttr) && !Lists(root, s, syn.propAttr) {
      UnnamedSpelledOut(syn, root, s);
    }
  }

  /** Microdata: an element is captured if and only if its `itemprop` names something, it lies inside an
      `itemscope`, and every nested `itemscope` around it names itself as a property. */
  lemma MicrodataCapture(root: Node, x: Path)
    requires !Carries(root, [], "itemscope")
    ensures IsCaptured(MICRODATA, root, x)
            <==> Lists(root, x, "itemprop") && Inside(root, x, "itemscope")
                 && forall s :: Under(s, x) && Carries(root, s, "itemscope") && Inside(root, s, "itemscope") ==>
                      Lists(root, s, "itemprop")
  {
    CaptureSpelledOut(MICRODATA, root, x);
  }

  lemma RdfaCapture(root: Node, x: Path)
    requires !Carries(root, [], "typeof")
    ensures IsCaptured(RDFA, root, x)
            <==> Lists(root, x, "property") && Inside(root, x, "typeof")
                 && forall s :: Under(s, x) && Carries(root, s, "typeof") && Inside(root, s, "typeof") ==>
                      Lists(root, s, "property")
  {
    CaptureSpelledOut(RDFA, root, x);
  }

  /** `extract_microdata` returns the documented items, those with `itemscope` and `itemtype`, if and only
      if no outermost `itemscope` lacks an `itemtype`. */
  lemma MicrodataDocumentedIff(root: Node)
    ensures Objects(Extracted(MICRODATA, root)) == Objects(Documented(MICRODATA, root))
            <==> forall x :: x != [] && Carries(root, x, "itemscope") && !Inside(root, x, "itemscope") ==>
                   Carries(root, x, "itemtype")
  {
    DocumentedIff(MICRODATA, root);
    forall x ensures IsTop(MICRODATA, root, x) <==> x != [] && Carries(root, x, "itemscope") && !Inside(root, x, "itemscope") {
      InsideIsScoped(MICRODATA, root, x);
    }
    assert forall x :: IsTyped(MICRODATA, root, x) <==> Carries(root, x, "itemtype");
  }

  /** `<div itemscope></div>` gives one empty item, which the documentation excludes. */
  lemma MicrodataUntypedItem()
    ensures var page := Element("html", map[], [Element("div", map["itemscope" := ""], [])]);
            Objects(Extracted(MICRODATA, page)) == [map[]] && Documented(MICRODATA, page) == []
  {
    UntypedItemIsReturned(MICRODATA);
  }

  /** For RDFa, whose scope attribute is the type attribute, the documented selection is always returned. */
  lemma RdfaIsDocumented(root: Node)
    ensures Objects(Extracted(RDFA, root)) == Objects(Documented(RDFA, root))
  {
    DocumentedIff(RDFA, root);
  }

  // ------------------------------------------------------------------- the returned dicts, spelled out

  /** What the element at `x` gives to `name` in Microdata. */
  function MicrodataGives(root: Node, name: string): Path -> seq<Json>
  {
    (x: Path) =>
      if Lists(root, x, "itemprop") then
        Copies(if Carries(root, x, "itemscope") then Obj(ScanItem(MICRODATA, root, x).obj)
               else Str(MicrodataValue(NodeAt(root, x).value)),
               Words(NodeAt(root, x).value.attrs["itemprop"]), name)
      else []
  }

  /** A Microdata dict holds, under each name, first the short `itemtype` (under "@type"), then the values of
      the elements inside the item whose `itemprop` lists the name. */
  lemma MicrodataDict(root: Node, p: Path, name: string)
    requires Carries(root, p, "itemscope")
    ensures var t := ShortType(Attr(NodeAt(root, p).value, "itemtype"));
            ValuesUnder(ScanItem(MICRODATA, root, p).obj, name) ==
            (if name == "@type" && t.Some? then [Str(t.value)] else [])
            + FlatMap(Members(MICRODATA, root, p), MicrodataGives(root, name))
  {
    ItemValues(MICRODATA, root, p, name);
    MicrodataMembers(root, p, Members(MICRODATA, root, p), name);
  }

  lemma MicrodataMembers(root: Node, p: Path, xs: seq<Path>, name: string)
    requires Valid(root, p) && xs == Members(MICRODATA, root, p)
    ensures FlatMap(xs, MicrodataGives(root, name)) == FlatMap(xs, ValuesFor(MICRODATA, root, name))
  {
    MembersExact(MICRODATA, root, p);
    forall x | x in xs ensures MicrodataGives(root, name)(x) == ValuesFor(MICRODATA, root, name)(x) {
      MicrodataMember(root, x, name);
    }
    FlatMapSame(xs, MicrodataGives(root, name), ValuesFor(MICRODATA, root, name));
  }

  lemma MicrodataMember(root: Node, x: Path, name: string)
    requires IsNamed(MICRODATA, root, x)
    ensures MicrodataGives(root, name)(x) == ValuesFor(MICRODATA, root, name)(x)
  {
    SameNames(Words(NodeAt(root, x).value.attrs["itemprop"]));
  }

  /** Microdata takes property names as they are. */
  lemma SameNames(ws: seq<string>)
    ensures Renamed(MICRODATA, ws) == ws
  {
  }

  /** RDFa shortens property names as it shortens types. */
  function ShortNames(ws: seq<string>): seq<string>
  {
    seq(|ws|, k requires 0 <= k < |ws| => match ShortType(Some(ws[k])) case Some(t) => t case None => ws[k])
  }

  function RdfaGives(root: Node, name: string): Path -> seq<Json>
  {
    (x: Path) =>
      if Lists(root, x, "property") then
        Copies(if Carries(root, x, "typeof") then Obj(ScanItem(RDFA, root, x).obj)
               else Str(RdfaValue(NodeAt(root, x).value)),
               ShortNames(Words(NodeAt(root, x).value.attrs["property"])), name)
      else []
  }

  lemma RdfaDict(root: Node, p: Path, name: string)
    requires Carries(root, p, "typeof")
    ensures var t := ShortType(Attr(NodeAt(root, p).value, "typeof"));
            ValuesUnder(ScanItem(RDFA, root, p).obj, name) ==
            (if name == "@type" && t.Some? then [Str(t.value)] else [])
            + FlatMap(Members(RDFA, root, p), RdfaGives(root, name))
  {
    ItemValues(RDFA, root, p, name);
    RdfaMembers(root, p, Members(RDFA, root, p), name);
  }

  lemma RdfaMembers(root: Node, p: Path, xs: seq<Path>, name: string)
    requires Valid(root, p) && xs == Members(RDFA, root, p)
    ensures FlatMap(xs, RdfaGives(root, name)) == FlatMap(xs, ValuesFor(RDFA, root, name))
  {
    MembersExact(RDFA, root, p);
    forall x | x in xs ensures RdfaGives(root, name)(x) == ValuesFor(RDFA, root, name)(x) {
      RdfaMember(root, x, name);
    }
    FlatMapSame(xs, RdfaGives(root, name), ValuesFor(RDFA, root, name));
  }

  lemma RdfaMember(root: Node, x: Path, name: string)
    requires IsNamed(RDFA, root, x)
    ensures RdfaGives(root, name)(x) == ValuesFor(RDFA, root, name)(x)
  {
    var ws := Words(NodeAt(root, x).value.attrs["property"]);
    assert ShortNames(ws) == Renamed(RDFA, ws);
  }

  /** `itemtype="https://schema.org/Product"` makes the first "@type" of the dict "Product". */
  lemma MicrodataTypeIs(root: Node, p: Path, lead: string, prefix: string, name: string, slashes: string, tail: string)
    requires Carries(root, p, "itemscope") && Attr(NodeAt(root, p).value, "itemtype") == Some(lead + prefix + name + slashes + tail)
    requires AllSpaces(lead) && NoSpace(prefix) && NameAfter(prefix, name, slashes) && (tail == "" || IsSpace(tail[0]))
    ensures var vs := ValuesUnder(ScanItem(MICRODATA, root, p).obj, "@type"); vs != [] && vs[0] == Str(name)
  {
    ShortTypeTakesName(lead, prefix, name, slashes, tail);
    MicrodataDict(root, p, "@type");
  }
}
