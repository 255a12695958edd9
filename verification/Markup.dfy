/** Microdata and RDFa extraction from an element tree.

    The program finds the properties of an item by scanning every descendant of its scope element and
    keeping those whose nearest scope ancestor is that element. `ScanItem` is that scan, over element
    positions; `ItemTree` is a one-pass recursion that stops at nested scopes. They agree on every
    tree, for both syntaxes, and from the recursion it follows which properties are captured. */
module Markup {
  import opened Prelude
  import opened Json
  import opened PyText

  datatype Node =
    | Text(text: string)
    | Element(name: string, attrs: map<string, string>, children: seq<Node>)

  /** What distinguishes the two syntaxes: the attribute that opens a scope, the ones naming its type
      and marking a property, how a property name is normalised, and the value of a plain property.
      Everything below holds for any choice; `Syntaxes` gives the two that the program uses. */
  datatype Syntax = Syntax(
    scopeAttr: string,
    typeAttr: string,
    propAttr: string,
    rename: string -> string,
    value: Node -> string)

  /** A position in the document: child indices from the root. */
  type Path = seq<nat>

  predicate IsScope(syn: Syntax, n: Node) { n.Element? && syn.scopeAttr in n.attrs }
  predicate IsProp(syn: Syntax, n: Node) { n.Element? && syn.propAttr in n.attrs }

  function Attr(n: Node, a: string): Option<string>
  {
    if n.Element? && a in n.attrs then Some(n.attrs[a]) else None
  }

  function Renamed(syn: Syntax, ws: seq<string>): seq<string>
  {
    seq(|ws|, k requires 0 <= k < |ws| => syn.rename(ws[k]))
  }

  /** The property names an element carries. */
  function Names(syn: Syntax, n: Node): seq<string>
  {
    match Attr(n, syn.propAttr) case None => [] case Some(v) => Renamed(syn, Words(v))
  }

  function LeafValue(syn: Syntax, n: Node): Json
  {
    Str(syn.value(n))
  }

  // ------------------------------------------------------------------------- collecting values

  /** `_assign`: a repeated key collects its values into a list. */
  function Assigned(obj: Dict, name: string, value: Json): Dict
  {
    if name !in obj then obj[name := value]
    else if obj[name].Arr? then obj[name := Arr(obj[name].items + [value])]
    else obj[name := Arr([obj[name], value])]
  }

  /** The values that a dict keeps under `name`, be it one or a list. */
  function ValuesUnder(d: Dict, name: string): seq<Json>
  {
    if name !in d then [] else if d[name].Arr? then d[name].items else [d[name]]
  }

  type Pair = (string, Json)

  function AssignAll(pairs: seq<Pair>): Dict
  {
    if pairs == [] then map[]
    else Assigned(AssignAll(pairs[..|pairs| - 1]), pairs[|pairs| - 1].0, pairs[|pairs| - 1].1)
  }

  /** The values given to `name`, in order. */
  function ValuesOf(pairs: seq<Pair>, name: string): seq<Json>
  {
    if pairs == [] then []
    else
      var last := pairs[|pairs| - 1];
      ValuesOf(pairs[..|pairs| - 1], name) + if last.0 == name then [last.1] else []
  }

  ghost predicate NoLists(pairs: seq<Pair>)
  {
    forall k :: 0 <= k < |pairs| ==> !pairs[k].1.Arr?
  }

  /** Every name maps to its only value or, when repeated, to the list of its values in order. */
  lemma {:induction false} AssignAllCollects(pairs: seq<Pair>, name: string)
    requires NoLists(pairs)
    ensures var vs := ValuesOf(pairs, name);
            && (name in AssignAll(pairs) <==> vs != [])
            && (|vs| == 1 ==> AssignAll(pairs)[name] == vs[0] && !vs[0].Arr?)
            && (|vs| > 1 ==> AssignAll(pairs)[name] == Arr(vs))
  {
    if pairs != [] {
      AssignAllCollects(pairs[..|pairs| - 1], name);
    }
  }

  /** The dict being filled. */
  class PropertyBag {
    var props: Dict

    constructor ()
      ensures props == map[]
    {
      props := map[];
    }

    method Assign(name: string, value: Json)
      modifies this
      ensures props == Assigned(old(props), name, value)
      ensures !value.Arr? ==> ValuesUnder(props, name) == ValuesUnder(old(props), name) + [value]
      ensures forall other :: other != name ==> (other in props <==> other in old(props)) && ValuesUnder(props, other) == ValuesUnder(old(props), other)
    {
      if name in props {
        var existing := props[name];
        if existing.Arr? {
          props := props[name := Arr(existing.items + [value])];
        } else {
          props := props[name := Arr([existing, value])];
        }
      } else {
        props := props[name := value];
      }
    }

    /** The inner loop over the names of one property element; `done` is what was assigned before. */
    method AssignEach(names: seq<string>, value: Json, ghost done: seq<Pair>)
      requires props == AssignAll(done)
      modifies this
      ensures props == AssignAll(done + Named(names, value))
    {
      assert done + Named([], value) == done;
      for j := 0 to |names|
        invariant props == AssignAll(done + Named(names[..j], value))
      {
        Assign(names[j], value);
        assert (done + Named(names[..j + 1], value))[..|done| + j] == done + Named(names[..j], value);
      }
      assert names[..|names|] == names;
    }
  }

  // -------------------------------------------------------------------------------- positions

  function Kids(n: Node): seq<Node> { if n.Element? then n.children else [] }

  function NodeAt(root: Node, p: Path): Option<Node>
  {
    if p == [] then Some(root)
    else
      var up := NodeAt(root, p[..|p| - 1]);
      var i := p[|p| - 1];
      if up.Some? && i < |Kids(up.value)| then Some(Kids(up.value)[i]) else None
  }

  predicate Valid(root: Node, p: Path) { NodeAt(root, p).Some? }

  predicate ScopeAt(syn: Syntax, root: Node, p: Path) { Valid(root, p) && IsScope(syn, NodeAt(root, p).value) }
  predicate PropAt(syn: Syntax, root: Node, p: Path) { Valid(root, p) && IsProp(syn, NodeAt(root, p).value) }

  /** Proper prefix: `q` is a descendant position of `p`. */
  predicate Under(p: Path, q: Path) { |p| < |q| && p == q[..|p|] }

  lemma {:induction false} UnderIsSmaller(root: Node, p: Path, q: Path)
    requires Valid(root, q) && Under(p, q)
    ensures Valid(root, p) && NodeAt(root, q).value < NodeAt(root, p).value
    decreases |q|
  {
    var up := q[..|q| - 1];
    if up != p {
      assert up[..|p|] == p;
      UnderIsSmaller(root, p, up);
    }
  }

  /** The nearest proper ancestor that opens a scope. */
  function NearestScope(syn: Syntax, root: Node, p: Path): Option<Path>
  {
    if p == [] then None
    else if ScopeAt(syn, root, p[..|p| - 1]) then Some(p[..|p| - 1])
    else NearestScope(syn, root, p[..|p| - 1])
  }

  method FindNearestScope(syn: Syntax, root: Node, p: Path) returns (r: Option<Path>)
    requires Valid(root, p)
    ensures r == NearestScope(syn, root, p)
  {
    var q := p;
    while q != []
      invariant Valid(root, q)
      invariant NearestScope(syn, root, q) == NearestScope(syn, root, p)
      decreases |q|
    {
      q := q[..|q| - 1];
      if IsScope(syn, NodeAt(root, q).value) {
        return Some(q);
      }
    }
    return None;
  }

  /** `find_all`: the positions of all descendants of the node at `q`, in document order. */
  function Below(n: Node, q: Path): seq<Path>
    decreases n, 1
  {
    match n
    case Text(_) => []
    case Element(_, _, children) => BelowKids(children, q)
  }

  function BelowKids(kids: seq<Node>, q: Path): seq<Path>
    decreases kids, 0
  {
    if kids == [] then []
    else
      var i := |kids| - 1;
      BelowKids(kids[..i], q) + ([q + [i]] + Below(kids[i], q + [i]))
  }

  ghost predicate AtOrUnder(p: Path, q: Path) { p == q || Under(p, q) }

  /** `prop` lies below `q`, inside one of the first `k` children. */
  predicate InFirst(q: Path, k: nat, prop: Path)
  {
    Under(q, prop) && prop[|q|] < k
  }

  lemma AtChild(q: Path, i: nat, p: Path)
    ensures AtOrUnder(q + [i], p) <==> Under(q, p) && p[|q|] == i
  {
    if Under(q, p) && p[|q|] == i {
      assert p[..|q| + 1] == q + [i];
    }
    if AtOrUnder(q + [i], p) {
      assert p[..|q|] == p[..|q| + 1][..|q|] == q;
    }
  }

  lemma {:induction false} ChildExists(root: Node, x: Path, p: Path)
    requires Valid(root, p) && Under(x, p)
    ensures Valid(root, x) && p[|x|] < |Kids(NodeAt(root, x).value)|
  {
    if |p| > |x| + 1 {
      assert p[..|p| - 1][..|x|] == x;
      ChildExists(root, x, p[..|p| - 1]);
    }
  }

  /** `find_all` visits every descendant position, each once. */
  lemma {:induction false} BelowExact(root: Node, q: Path)
    requires Valid(root, q)
    ensures var xs := Below(NodeAt(root, q).value, q);
            Distinct(xs) && forall x :: x in xs <==> Valid(root, x) && Under(q, x)
    decreases NodeAt(root, q).value, 1
  {
    var n := NodeAt(root, q).value;
    BelowKidsExact(root, q, |Kids(n)|);
    assert Kids(n)[..|Kids(n)|] == Kids(n);
    assert Below(n, q) == BelowKids(Kids(n), q);
    forall x | Valid(root, x) && Under(q, x) ensures InFirst(q, |Kids(n)|, x) {
      ChildExists(root, q, x);
    }
  }

  lemma {:induction false} BelowKidsExact(root: Node, q: Path, k: nat)
    requires Valid(root, q) && k <= |Kids(NodeAt(root, q).value)|
    ensures var xs := BelowKids(Kids(NodeAt(root, q).value)[..k], q);
            Distinct(xs) && forall x :: x in xs <==> Valid(root, x) && InFirst(q, k, x)
    decreases NodeAt(root, q).value, 0, k
  {
    if k > 0 {
      var kids := Kids(NodeAt(root, q).value);
      var x := q + [k - 1];
      var before, deep := BelowKids(kids[..k - 1], q), Below(kids[k - 1], x);
      assert x[..|q|] == q && NodeAt(root, x) == Some(kids[k - 1]);
      BelowKidsExact(root, q, k - 1);
      BelowExact(root, x);
      BelowKidsStep(kids, q, k);
      forall y ensures InFirst(q, k, y) <==> InFirst(q, k - 1, y) || AtOrUnder(x, y) {
        AtChild(q, k - 1, y);
      }
      forall y | y in [x] + deep ensures y !in before && AtOrUnder(x, y) {
        AtChild(q, k - 1, y);
      }
      DistinctFirst(x, deep);
      DistinctConcat(before, [x] + deep);
      forall y | Valid(root, y) && AtOrUnder(x, y) ensures y in [x] + deep {
        assert y == x || y in deep;
      }
    }
  }

  lemma BelowKidsStep(kids: seq<Node>, q: Path, k: nat)
    requires 0 < k <= |kids|
    ensures BelowKids(kids[..k], q) == BelowKids(kids[..k - 1], q) + ([q + [k - 1]] + Below(kids[k - 1], q + [k - 1]))
  {
    assert kids[..k][..k - 1] == kids[..k - 1];
  }

  /** Document order: an element before its descendants, and siblings with all they contain from left to right. */
  predicate Precedes(p: Path, q: Path)
    decreases |p|
  {
    q != [] && (p == [] || p[0] < q[0] || (p[0] == q[0] && Precedes(p[1..], q[1..])))
  }

  ghost predicate InDocumentOrder(xs: seq<Path>)
  {
    forall i, j :: 0 <= i < j < |xs| ==> Precedes(xs[i], xs[j])
  }

  lemma {:induction false} PrecedesBelow(q: Path, a: Path, b: Path)
    ensures Precedes(q + a, q + b) <==> Precedes(a, b)
    decreases |q|
  {
    if q == [] {
      assert q + a == a && q + b == b;
    } else {
      assert (q + a)[1..] == q[1..] + a && (q + b)[1..] == q[1..] + b;
      PrecedesBelow(q[1..], a, b);
    }
  }

  /** Of two positions below `q`, one in an earlier child or at the child itself comes first. */
  lemma EarlierFirst(q: Path, i: nat, x: Path, y: Path)
    requires InFirst(q, i, x) && AtOrUnder(q + [i], y)
    ensures Precedes(x, y)
  {
    AtChild(q, i, y);
    assert x == q + x[|q|..] && y == q + y[|q|..];
    PrecedesBelow(q, x[|q|..], y[|q|..]);
  }

  lemma AncestorFirst(x: Path, y: Path)
    requires Under(x, y)
    ensures Precedes(x, y)
  {
    assert x + [] == x && x + y[|x|..] == y;
    PrecedesBelow(x, [], y[|x|..]);
  }

  lemma OrderJoin(a: seq<Path>, b: seq<Path>)
    requires InDocumentOrder(a) && InDocumentOrder(b)
    requires forall x, y :: x in a && y in b ==> Precedes(x, y)
    ensures InDocumentOrder(a + b)
  {
    forall i, j | 0 <= i < j < |a + b| ensures Precedes((a + b)[i], (a + b)[j]) {
      if i < |a| <= j {
        assert a[i] in a && b[j - |a|] in b;
      }
    }
  }

  /** `find_all` gives the descendants in document order. */
  lemma {:induction false} BelowInOrder(root: Node, q: Path)
    requires Valid(root, q)
    ensures InDocumentOrder(Below(NodeAt(root, q).value, q))
    decreases NodeAt(root, q).value, 1
  {
    var n := NodeAt(root, q).value;
    if n.Element? {
      BelowKidsInOrder(root, q, |n.children|);
      assert n.children[..|n.children|] == n.children;
    }
  }

  lemma {:induction false} BelowKidsInOrder(root: Node, q: Path, k: nat)
    requires Valid(root, q) && k <= |Kids(NodeAt(root, q).value)|
    ensures InDocumentOrder(BelowKids(Kids(NodeAt(root, q).value)[..k], q))
    decreases NodeAt(root, q).value, 0, k
  {
    if k > 0 {
      var kids := Kids(NodeAt(root, q).value);
      var x := q + [k - 1];
      var before, deep := BelowKids(kids[..k - 1], q), Below(kids[k - 1], x);
      assert x[..|q|] == q && NodeAt(root, x) == Some(kids[k - 1]);
      BelowKidsInOrder(root, q, k - 1);
      BelowInOrder(root, x);
      BelowKidsExact(root, q, k - 1);
      BelowExact(root, x);
      forall y | y in deep ensures Precedes(x, y) {
        AncestorFirst(x, y);
      }
      OrderJoin([x], deep);
      forall y, z | y in before && z in [x] + deep ensures Precedes(y, z) {
        EarlierFirst(q, k - 1, y, z);
      }
      OrderJoin(before, [x] + deep);
      BelowKidsStep(kids, q, k);
    }
  }

  /** The nearest scope is a scope, and an ancestor. */
  lemma {:induction false} NearestScopeIsAbove(syn: Syntax, root: Node, p: Path)
    requires NearestScope(syn, root, p).Some?
    ensures ScopeAt(syn, root, NearestScope(syn, root, p).value) && Under(NearestScope(syn, root, p).value, p)
  {
    var up := p[..|p| - 1];
    if !ScopeAt(syn, root, up) {
      NearestScopeIsAbove(syn, root, up);
      var s := NearestScope(syn, root, p).value;
      assert p[..|s|] == up[..|s|];
    }
  }

  // ---------------------------------------------------------------------------- items and uses

  /** The value of the element at `prop` was put into the item at `item`. */
  datatype Use = Use(item: Path, prop: Path)

  /** A parsed item: the dict the program returns and, for the record, the elements whose values are in it;
      module `Contribution` proves that they are. */
  datatype Item = Item(obj: Dict, used: seq<Use>)

  /** What one property element contributes. */
  datatype Piece = Piece(at: Path, names: seq<string>, value: Json, inner: seq<Use>)

  function TypePairs(syn: Syntax, n: Node): seq<Pair>
  {
    match ShortType(Attr(n, syn.typeAttr)) case Some(t) => [("@type", Str(t))] case None => []
  }

  function Named(names: seq<string>, value: Json): seq<Pair>
  {
    seq(|names|, k requires 0 <= k < |names| => (names[k], value))
  }

  function PairsOf(pieces: seq<Piece>): seq<Pair>
  {
    FlatMap(pieces, PairsIn())
  }

  function PairsIn(): Piece -> seq<Pair> { (piece: Piece) => Named(piece.names, piece.value) }

  /** A property without a name is visited, but nothing of it is kept. */
  function UsesOf(item: Path, pieces: seq<Piece>): seq<Use>
  {
    if pieces == [] then []
    else
      var last := pieces[|pieces| - 1];
      UsesOf(item, pieces[..|pieces| - 1]) + if last.names == [] then [] else [Use(item, last.at)] + last.inner
  }

  function Build(syn: Syntax, n: Node, p: Path, pieces: seq<Piece>): Item
  {
    Item(AssignAll(TypePairs(syn, n) + PairsOf(pieces)), UsesOf(p, pieces))
  }

  // ------------------------------------------------------ the program: scan all, filter by scope

  function ScanItem(syn: Syntax, root: Node, p: Path): Item
    requires Valid(root, p)
    decreases NodeAt(root, p).value, 2
  {
    Build(syn, NodeAt(root, p).value, p, ScanPieces(syn, root, p, Below(NodeAt(root, p).value, p)))
  }

  function ScanPieces(syn: Syntax, root: Node, p: Path, xs: seq<Path>): seq<Piece>
    requires Valid(root, p)
    decreases NodeAt(root, p).value, 1, |xs|
  {
    if xs == [] then []
    else ScanPieces(syn, root, p, xs[..|xs| - 1]) + ScanOne(syn, root, p, xs[|xs| - 1])
  }

  function ScanOne(syn: Syntax, root: Node, p: Path, x: Path): seq<Piece>
    requires Valid(root, p)
    decreases NodeAt(root, p).value, 0
  {
    if PropAt(syn, root, x) && NearestScope(syn, root, x) == Some(p) then
      var n := NodeAt(root, x).value;
      NearestScopeIsAbove(syn, root, x);
      UnderIsSmaller(root, p, x);
      if IsScope(syn, n) then
        var it := ScanItem(syn, root, x);
        [Piece(x, Names(syn, n), Obj(it.obj), it.used)]
      else [Piece(x, Names(syn, n), LeafValue(syn, n), [])]
    else []
  }

  /** How one more position extends what has been assigned. */
  lemma ScanGrows(syn: Syntax, root: Node, p: Path, xs: seq<Path>, i: nat, typed: seq<Pair>)
    requires Valid(root, p) && i < |xs|
    ensures typed + PairsOf(ScanPieces(syn, root, p, xs[..i + 1]))
            == typed + PairsOf(ScanPieces(syn, root, p, xs[..i])) + PairsOf(ScanOne(syn, root, p, xs[i]))
  {
    ScanPiecesSnoc(syn, root, p, xs, i);
    FlatMapAppend(ScanPieces(syn, root, p, xs[..i]), ScanOne(syn, root, p, xs[i]), PairsIn());
  }

  lemma FoundIsValid(root: Node, p: Path, i: nat)
    requires Valid(root, p) && i < |Below(NodeAt(root, p).value, p)|
    ensures Valid(root, Below(NodeAt(root, p).value, p)[i])
  {
    BelowExact(root, p);
    assert Below(NodeAt(root, p).value, p)[i] in Below(NodeAt(root, p).value, p);
  }

  lemma ScanPiecesSnoc(syn: Syntax, root: Node, p: Path, xs: seq<Path>, i: nat)
    requires Valid(root, p) && i < |xs|
    ensures ScanPieces(syn, root, p, xs[..i + 1]) == ScanPieces(syn, root, p, xs[..i]) + ScanOne(syn, root, p, xs[i])
  {
    assert xs[..i + 1][..i] == xs[..i];
  }

  /** A new dict holding the item's type, when it has one. */
  method NewBag(syn: Syntax, scope: Node) returns (bag: PropertyBag)
    ensures fresh(bag) && bag.props == AssignAll(TypePairs(syn, scope))
  {
    bag := new PropertyBag();
    var typeName := ShortType(Attr(scope, syn.typeAttr));
    if typeName.Some? {
      bag.props := bag.props["@type" := Str(typeName.value)];
      ghost var typed := TypePairs(syn, scope);
      assert typed[..0] == [] && AssignAll(typed[..0]) == map[];
    }
  }

  /** The extractor's recursion over `find_all`, with the dict it fills. */
  method ParseItem(syn: Syntax, root: Node, p: Path) returns (obj: Dict)
    requires Valid(root, p)
    ensures obj == ScanItem(syn, root, p).obj
    decreases NodeAt(root, p).value
  {
    var scope := NodeAt(root, p).value;
    var bag := NewBag(syn, scope);
    ghost var typed := TypePairs(syn, scope);
    var found := Below(scope, p);
    assert typed + PairsOf([]) == typed;
    for i := 0 to |found|
      invariant bag.props == AssignAll(typed + PairsOf(ScanPieces(syn, root, p, found[..i])))
    {
      ghost var done := typed + PairsOf(ScanPieces(syn, root, p, found[..i]));
      FoundIsValid(root, p, i);
      ScanGrows(syn, root, p, found, i, typed);
      var piece := ParseProp(syn, root, p, found[i]);
      if piece.Some? {
        bag.AssignEach(piece.value.0, piece.value.1, done);
      } else {
        assert done + [] == done;
      }
    }
    assert found[..|found|] == found;
    obj := bag.props;
  }

  /** The loop body: names and value of `x` when it is a property of this very scope. */
  method ParseProp(syn: Syntax, root: Node, p: Path, x: Path) returns (r: Option<(seq<string>, Json)>)
    requires Valid(root, p) && Valid(root, x)
    ensures PairsOf(ScanOne(syn, root, p, x)) == if r.Some? then Named(r.value.0, r.value.1) else []
    decreases NodeAt(root, p).value, 0
  {
    var prop := NodeAt(root, x).value;
    var nearest := FindNearestScope(syn, root, x);
    if !IsProp(syn, prop) || nearest != Some(p) {
      return None;
    }
    var names := Names(syn, prop);
    ghost var piece := ScanOne(syn, root, p, x)[0];
    FlatMapOne(piece, PairsIn());
    if IsScope(syn, prop) {
      NearestScopeIsAbove(syn, root, x);
      UnderIsSmaller(root, p, x);
      var nested := ParseItem(syn, root, x);
      return Some((names, Obj(nested)));
    }
    return Some((names, LeafValue(syn, prop)));
  }

  // ------------------------------------------------------- the reference: stop at nested scopes

  function ItemTree(syn: Syntax, n: Node, p: Path): Item
    decreases n, 0
  {
    Build(syn, n, p, if n.Element? then Direct(syn, n.children, p) else [])
  }

  /** The properties found below `q` without entering a nested scope. */
  function Direct(syn: Syntax, kids: seq<Node>, q: Path): seq<Piece>
    decreases kids, 0
  {
    if kids == [] then []
    else
      var i := |kids| - 1;
      Direct(syn, kids[..i], q) + DirectNode(syn, kids[i], q + [i])
  }

  function DirectNode(syn: Syntax, n: Node, x: Path): seq<Piece>
    decreases n, 2
  {
    (if IsProp(syn, n) then [PieceTree(syn, n, x)] else [])
    + if n.Element? && !IsScope(syn, n) then Direct(syn, n.children, x) else []
  }

  function PieceTree(syn: Syntax, n: Node, x: Path): Piece
    requires n.Element?
    decreases n, 1
  {
    if IsScope(syn, n) then
      var it := ItemTree(syn, n, x);
      Piece(x, Names(syn, n), Obj(it.obj), it.used)
    else Piece(x, Names(syn, n), LeafValue(syn, n), [])
  }

  // ------------------------------------------------------------------------------ they agree

  /** The scope that a child of `q` sees. */
  function InnerScope(syn: Syntax, root: Node, q: Path): Option<Path>
  {
    if ScopeAt(syn, root, q) then Some(q) else NearestScope(syn, root, q)
  }

  /** Visiting `xs` with `f` gives `ys` when `inside` holds, and nothing otherwise. */
  ghost predicate Yields<T>(xs: seq<Path>, f: Path -> seq<T>, inside: bool, ys: seq<T>)
  {
    FlatMap(xs, f) == if inside then ys else []
  }

  /** `Yields` as a relation between positions and results. */
  ghost function Yielding<T>(f: Path -> seq<T>, inside: bool): (seq<Path>, seq<T>) -> bool
  {
    (xs, ys) => Yields(xs, f, inside, ys)
  }

  ghost predicate Additive<T(!new)>(r: (seq<Path>, seq<T>) -> bool)
  {
    forall a, b, ys, zs :: r(a, ys) && r(b, zs) ==> r(a + b, ys + zs)
  }

  lemma YieldingIsAdditive<T(!new)>(f: Path -> seq<T>, inside: bool)
    ensures Additive(Yielding(f, inside))
  {
    forall a, b, ys, zs | Yields(a, f, inside, ys) && Yields(b, f, inside, zs) ensures Yields(a + b, f, inside, ys + zs) {
      FlatMapAppend(a, b, f);
    }
  }

  /** What the scan for the item at `p` takes from one position. */
  function Scanner(syn: Syntax, root: Node, p: Path): Path -> seq<Piece>
    requires Valid(root, p)
  {
    (x: Path) => ScanOne(syn, root, p, x)
  }

  lemma {:induction false} ScanPiecesFlat(syn: Syntax, root: Node, p: Path, xs: seq<Path>)
    requires Valid(root, p)
    ensures ScanPieces(syn, root, p, xs) == FlatMap(xs, Scanner(syn, root, p))
  {
    if xs != [] {
      ScanPiecesFlat(syn, root, p, xs[..|xs| - 1]);
    }
  }

  /** The filtered scan of an item equals the one-pass recursion. */
  lemma {:induction false} ScanIsTree(syn: Syntax, root: Node, p: Path)
    requires ScopeAt(syn, root, p)
    ensures ScanItem(syn, root, p) == ItemTree(syn, NodeAt(root, p).value, p)
    decreases NodeAt(root, p).value, 2
  {
    ScanBelow(syn, root, p, p);
    ScanPiecesFlat(syn, root, p, Below(NodeAt(root, p).value, p));
  }

  /** Scanning the part of the document below `q`. */
  lemma {:induction false} ScanBelow(syn: Syntax, root: Node, p: Path, q: Path)
    requires ScopeAt(syn, root, p) && Valid(root, q) && AtOrUnder(p, q)
    ensures Yields(Below(NodeAt(root, q).value, q), Scanner(syn, root, p), InnerScope(syn, root, q) == Some(p),
                   Direct(syn, Kids(NodeAt(root, q).value), q))
    decreases NodeAt(root, q).value, 1
  {
    var n := NodeAt(root, q).value;
    if n.Element? {
      ScanKids(syn, root, p, q, |n.children|);
      assert n.children[..|n.children|] == n.children;
    }
  }

  lemma {:induction false} ScanKids(syn: Syntax, root: Node, p: Path, q: Path, k: nat)
    requires ScopeAt(syn, root, p) && Valid(root, q) && AtOrUnder(p, q)
    requires k <= |Kids(NodeAt(root, q).value)|
    ensures var kids := Kids(NodeAt(root, q).value)[..k];
            Yields(BelowKids(kids, q), Scanner(syn, root, p), InnerScope(syn, root, q) == Some(p), Direct(syn, kids, q))
    decreases NodeAt(root, q).value, 0, k
  {
    if k > 0 {
      ScanKids(syn, root, p, q, k - 1);
      ScanNode(syn, root, p, q, k - 1);
      var f, inside := Scanner(syn, root, p), InnerScope(syn, root, q) == Some(p);
      YieldingIsAdditive(f, inside);
      OneMoreKid(syn, Kids(NodeAt(root, q).value), q, k, Yielding(f, inside));
    }
  }

  lemma OneMoreKid(syn: Syntax, kids: seq<Node>, q: Path, k: nat, r: (seq<Path>, seq<Piece>) -> bool)
    requires 0 < k <= |kids| && Additive(r)
    requires r(BelowKids(kids[..k - 1], q), Direct(syn, kids[..k - 1], q))
    requires var n, x := kids[k - 1], q + [k - 1]; r([x] + Below(n, x), DirectNode(syn, n, x))
    ensures r(BelowKids(kids[..k], q), Direct(syn, kids[..k], q))
  {
    BelowKidsStep(kids, q, k);
    DirectStep(syn, kids, q, k);
  }

  lemma DirectStep(syn: Syntax, kids: seq<Node>, q: Path, k: nat)
    requires 0 < k <= |kids|
    ensures Direct(syn, kids[..k], q) == Direct(syn, kids[..k - 1], q) + DirectNode(syn, kids[k - 1], q + [k - 1])
  {
    assert kids[..k][..k - 1] == kids[..k - 1];
  }

  /** Scanning one child of `q` and everything below it. */
  lemma {:induction false} ScanNode(syn: Syntax, root: Node, p: Path, q: Path, i: nat)
    requires ScopeAt(syn, root, p) && Valid(root, q) && AtOrUnder(p, q)
    requires i < |Kids(NodeAt(root, q).value)|
    ensures var n, x := Kids(NodeAt(root, q).value)[i], q + [i];
            Yields([x] + Below(n, x), Scanner(syn, root, p), InnerScope(syn, root, q) == Some(p), DirectNode(syn, n, x))
    decreases NodeAt(root, q).value, 0, 0
  {
    var n, x := Kids(NodeAt(root, q).value)[i], q + [i];
    assert x[..|q|] == q && NodeAt(root, x) == Some(n);
    assert NearestScope(syn, root, x) == InnerScope(syn, root, q);
    assert Under(p, x) by {
      assert x[..|p|] == q[..|p|];
    }
    ScanBelow(syn, root, p, x);
    if IsScope(syn, n) {
      ScanIsTree(syn, root, x);
    }
    ScanOneIsPiece(syn, root, p, x);
    NodeYields(syn, n, x, Scanner(syn, root, p), InnerScope(syn, root, q) == Some(p));
  }

  /** A child yields itself as a property and, unless it opens a scope, what lies below it. */
  lemma NodeYields(syn: Syntax, n: Node, x: Path, f: Path -> seq<Piece>, inside: bool)
    requires f(x) == if IsProp(syn, n) && inside then [PieceTree(syn, n, x)] else []
    requires Yields(Below(n, x), f, inside && !IsScope(syn, n), Direct(syn, Kids(n), x))
    ensures Yields([x] + Below(n, x), f, inside, DirectNode(syn, n, x))
  {
    FlatMapAppend([x], Below(n, x), f);
    FlatMapOne(x, f);
    assert n.Text? ==> Direct(syn, Kids(n), x) == [];
  }

  lemma ScanOneIsPiece(syn: Syntax, root: Node, p: Path, x: Path)
    requires Valid(root, p) && Valid(root, x)
    requires var n := NodeAt(root, x).value; IsScope(syn, n) ==> ScanItem(syn, root, x) == ItemTree(syn, n, x)
    ensures var n := NodeAt(root, x).value;
            Scanner(syn, root, p)(x) ==
            if IsProp(syn, n) && NearestScope(syn, root, x) == Some(p) then [PieceTree(syn, n, x)] else []
  {
  }

  // ------------------------------------------------------------------- the values of an item

  /** All the (name, value) pairs assigned to an item, its type first, then document order. */
  function ItemPairs(syn: Syntax, n: Node, p: Path): seq<Pair>
  {
    TypePairs(syn, n) + PairsOf(Direct(syn, Kids(n), p))
  }

  ghost predicate NoListPieces(pieces: seq<Piece>)
  {
    forall k :: 0 <= k < |pieces| ==> !pieces[k].value.Arr?
  }

  lemma {:induction false} DirectHasNoLists(syn: Syntax, kids: seq<Node>, q: Path)
    ensures NoListPieces(Direct(syn, kids, q))
    decreases kids, 0
  {
    if kids != [] {
      var i := |kids| - 1;
      DirectHasNoLists(syn, kids[..i], q);
      if kids[i].Element? {
        DirectHasNoLists(syn, kids[i].children, q + [i]);
        assert !PieceTree(syn, kids[i], q + [i]).value.Arr?;
      }
      assert NoListPieces(DirectNode(syn, kids[i], q + [i]));
    }
  }

  lemma {:induction false} PairsHaveNoLists(pieces: seq<Piece>)
    requires NoListPieces(pieces)
    ensures NoLists(PairsOf(pieces))
  {
    if pieces != [] {
      PairsHaveNoLists(pieces[..|pieces| - 1]);
    }
  }

  /** In the dict the program returns, every name maps to its only value or, when repeated, to the list
      of its values in document order. */
  lemma ItemCollects(syn: Syntax, root: Node, p: Path, name: string)
    requires ScopeAt(syn, root, p)
    ensures var obj := ScanItem(syn, root, p).obj;
            var vs := ValuesOf(ItemPairs(syn, NodeAt(root, p).value, p), name);
            && (name in obj <==> vs != [])
            && (|vs| == 1 ==> obj[name] == vs[0])
            && (|vs| > 1 ==> obj[name] == Arr(vs))
  {
    var n := NodeAt(root, p).value;
    ScanIsTree(syn, root, p);
    DirectHasNoLists(syn, Kids(n), p);
    PairsHaveNoLists(Direct(syn, Kids(n), p));
    AssignAllCollects(ItemPairs(syn, n, p), name);
  }
}
