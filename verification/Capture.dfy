/** Which property elements of a document end up in which extracted item. */
module Capture {
  import opened Prelude
  import opened Json
  import opened Markup

  /** A top-level item and where it was found. */
  datatype Top = Top(at: Path, item: Item)

  // ------------------------------------------------------------------ top-level items, two ways

  /** The item that the selection takes from one position. */
  function TopAt(syn: Syntax, root: Node): Path -> seq<Top>
  {
    (x: Path) =>
      if ScopeAt(syn, root, x) && NearestScope(syn, root, x).None? then [Top(x, ScanItem(syn, root, x))] else []
  }

  function Extracted(syn: Syntax, root: Node): seq<Top>
  {
    FlatMap(Below(root, []), TopAt(syn, root))
  }

  function Objects(tops: seq<Top>): seq<Dict>
  {
    seq(|tops|, k requires 0 <= k < |tops| => tops[k].item.obj)
  }

  lemma ObjectsConcat(a: seq<Top>, b: seq<Top>)
    ensures Objects(a + b) == Objects(a) + Objects(b)
  {
  }

  /** `extract_microdata` and `extract_rdfa`. */
  method Extract(syn: Syntax, root: Node) returns (items: seq<Dict>)
    ensures items == Objects(Extracted(syn, root))
  {
    items := [];
    var found := Below(root, []);
    ghost var f := TopAt(syn, root);
    for i := 0 to |found|
      invariant items == Objects(FlatMap(found[..i], f))
    {
      FoundIsValid(root, [], i);
      FlatMapStep(found, i, f);
      ObjectsConcat(FlatMap(found[..i], f), f(found[i]));
      var item := ParseTop(syn, root, found[i]);
      if item.Some? {
        items := items + [item.value];
      }
    }
    assert found[..|found|] == found;
  }

  /** The loop body: the item of `x` when it is a scope outside every other scope. */
  method ParseTop(syn: Syntax, root: Node, x: Path) returns (r: Option<Dict>)
    requires Valid(root, x)
    ensures Objects(TopAt(syn, root)(x)) == if r.Some? then [r.value] else []
  {
    if !IsScope(syn, NodeAt(root, x).value) {
      return None;
    }
    var nearest := FindNearestScope(syn, root, x);
    if nearest.Some? {
      return None;
    }
    var obj := ParseItem(syn, root, x);
    r := Some(obj);
  }

  /** The reference: outermost scopes, left to right. */
  function TopsKids(syn: Syntax, kids: seq<Node>, q: Path): seq<Top>
    decreases kids, 0
  {
    if kids == [] then []
    else
      var i := |kids| - 1;
      TopsKids(syn, kids[..i], q) + TopsNode(syn, kids[i], q + [i])
  }

  function TopsNode(syn: Syntax, n: Node, x: Path): seq<Top>
    decreases n, 1
  {
    if IsScope(syn, n) then [Top(x, ItemTree(syn, n, x))]
    else if n.Element? then TopsKids(syn, n.children, x)
    else []
  }

  /** The selection below `q`, unless `q` lies in a scope. */
  lemma {:induction false} TopsBelow(syn: Syntax, root: Node, q: Path)
    requires Valid(root, q)
    ensures Yields(Below(NodeAt(root, q).value, q), TopAt(syn, root), InnerScope(syn, root, q).None?,
                   TopsKids(syn, Kids(NodeAt(root, q).value), q))
    decreases NodeAt(root, q).value, 1
  {
    var n := NodeAt(root, q).value;
    if n.Element? {
      TopsBelowKids(syn, root, q, |n.children|);
      assert n.children[..|n.children|] == n.children;
    }
  }

  lemma {:induction false} TopsBelowKids(syn: Syntax, root: Node, q: Path, k: nat)
    requires Valid(root, q) && k <= |Kids(NodeAt(root, q).value)|
    ensures var kids := Kids(NodeAt(root, q).value)[..k];
            Yields(BelowKids(kids, q), TopAt(syn, root), InnerScope(syn, root, q).None?, TopsKids(syn, kids, q))
    decreases NodeAt(root, q).value, 0, k
  {
    if k > 0 {
      TopsBelowKids(syn, root, q, k - 1);
      TopsAtNode(syn, root, q, k - 1);
      var f, inside := TopAt(syn, root), InnerScope(syn, root, q).None?;
      YieldingIsAdditive(f, inside);
      OneMoreTop(syn, Kids(NodeAt(root, q).value), q, k, Yielding(f, inside));
    }
  }

  lemma OneMoreTop(syn: Syntax, kids: seq<Node>, q: Path, k: nat, r: (seq<Path>, seq<Top>) -> bool)
    requires 0 < k <= |kids| && Additive(r)
    requires r(BelowKids(kids[..k - 1], q), TopsKids(syn, kids[..k - 1], q))
    requires var n, x := kids[k - 1], q + [k - 1]; r([x] + Below(n, x), TopsNode(syn, n, x))
    ensures r(BelowKids(kids[..k], q), TopsKids(syn, kids[..k], q))
  {
    BelowKidsStep(kids, q, k);
    TopsKidsStep(syn, kids, q, k);
  }

  lemma TopsKidsStep(syn: Syntax, kids: seq<Node>, q: Path, k: nat)
    requires 0 < k <= |kids|
    ensures TopsKids(syn, kids[..k], q) == TopsKids(syn, kids[..k - 1], q) + TopsNode(syn, kids[k - 1], q + [k - 1])
  {
    assert kids[..k][..k - 1] == kids[..k - 1];
  }

  lemma {:induction false} TopsAtNode(syn: Syntax, root: Node, q: Path, i: nat)
    requires Valid(root, q) && i < |Kids(NodeAt(root, q).value)|
    ensures var n, x := Kids(NodeAt(root, q).value)[i], q + [i];
            Yields([x] + Below(n, x), TopAt(syn, root), InnerScope(syn, root, q).None?, TopsNode(syn, n, x))
    decreases NodeAt(root, q).value, 0, 0
  {
    var n, x := Kids(NodeAt(root, q).value)[i], q + [i];
    assert x[..|q|] == q && NodeAt(root, x) == Some(n);
    assert NearestScope(syn, root, x) == InnerScope(syn, root, q);
    TopsBelow(syn, root, x);
    if IsScope(syn, n) {
      ScanIsTree(syn, root, x);
    }
    TopYields(syn, n, x, TopAt(syn, root), InnerScope(syn, root, q).None?);
  }

  lemma TopYields(syn: Syntax, n: Node, x: Path, f: Path -> seq<Top>, inside: bool)
    requires f(x) == if IsScope(syn, n) && inside then [Top(x, ItemTree(syn, n, x))] else []
    requires Yields(Below(n, x), f, inside && !IsScope(syn, n), TopsKids(syn, Kids(n), x))
    ensures Yields([x] + Below(n, x), f, inside, TopsNode(syn, n, x))
  {
    FlatMapAppend([x], Below(n, x), f);
    FlatMapOne(x, f);
    assert n.Text? ==> TopsKids(syn, Kids(n), x) == [];
  }

  /** Selecting top-level items by nearest scope finds exactly the outermost scopes, in order. */
  lemma ExtractedIsOutermost(syn: Syntax, root: Node)
    requires !IsScope(syn, root)
    ensures Extracted(syn, root) == TopsKids(syn, Kids(root), [])
  {
    TopsBelow(syn, root, []);
  }

  // ---------------------------------------------------------------------------- what is captured

  predicate IsNamed(syn: Syntax, root: Node, p: Path)
  {
    PropAt(syn, root, p) && Names(syn, NodeAt(root, p).value) != []
  }

  /** The item at `t` hangs below the item at `s` by a chain of named properties. */
  predicate KeptFrom(syn: Syntax, root: Node, s: Path, t: Path)
    decreases |t|
  {
    t == s
    || (IsNamed(syn, root, t) && NearestScope(syn, root, t).Some?
        && (NearestScopeIsAbove(syn, root, t); KeptFrom(syn, root, s, NearestScope(syn, root, t).value)))
  }

  /** The outermost scope around a scope. */
  function TopOf(syn: Syntax, root: Node, t: Path): Path
    decreases |t|
  {
    if NearestScope(syn, root, t).None? then t
    else NearestScopeIsAbove(syn, root, t); TopOf(syn, root, NearestScope(syn, root, t).value)
  }

  predicate Kept(syn: Syntax, root: Node, t: Path)
  {
    KeptFrom(syn, root, TopOf(syn, root, t), t)
  }

  predicate UsedFrom(syn: Syntax, root: Node, s: Path, u: Use)
  {
    IsNamed(syn, root, u.prop) && NearestScope(syn, root, u.prop) == Some(u.item) && KeptFrom(syn, root, s, u.item)
  }

  /** Below a scope, the nearest scope is that scope or one inside it. */
  lemma {:induction false} NearestWithin(syn: Syntax, root: Node, x: Path, t: Path)
    requires ScopeAt(syn, root, x) && Under(x, t)
    ensures NearestScope(syn, root, t).Some? && AtOrUnder(x, NearestScope(syn, root, t).value)
  {
    var up := t[..|t| - 1];
    assert up[..|x|] == x;
    if up != x && !ScopeAt(syn, root, up) {
      NearestWithin(syn, root, x, up);
    }
  }

  lemma {:induction false} KeptThrough(syn: Syntax, root: Node, s: Path, x: Path, t: Path)
    requires ScopeAt(syn, root, x) && NearestScope(syn, root, x) == Some(s) && AtOrUnder(x, t)
    ensures KeptFrom(syn, root, s, t) <==> IsNamed(syn, root, x) && KeptFrom(syn, root, x, t)
    decreases |t|
  {
    NearestScopeIsAbove(syn, root, x);
    if t != x {
      NearestWithin(syn, root, x, t);
      NearestScopeIsAbove(syn, root, t);
      KeptThrough(syn, root, s, x, NearestScope(syn, root, t).value);
    }
  }

  lemma {:induction false} UsesOfAppend(s: Path, a: seq<Piece>, b: seq<Piece>)
    ensures UsesOf(s, a + b) == UsesOf(s, a) + UsesOf(s, b)
    decreases |b|
  {
    if b == [] {
      assert a + b == a;
    } else {
      assert (a + b)[..|a + b| - 1] == a + b[..|b| - 1];
      UsesOfAppend(s, a, b[..|b| - 1]);
    }
  }

  lemma {:induction false} KidsUses(syn: Syntax, root: Node, q: Path, k: nat, s: Path)
    requires Valid(root, q) && InnerScope(syn, root, q) == Some(s) && k <= |Kids(NodeAt(root, q).value)|
    ensures var us := UsesOf(s, Direct(syn, Kids(NodeAt(root, q).value)[..k], q));
            && Distinct(us)
            && forall u :: u in us <==> UsedFrom(syn, root, s, u) && InFirst(q, k, u.prop)
    decreases NodeAt(root, q).value, 0, k
  {
    if k > 0 {
      var kids := Kids(NodeAt(root, q).value);
      var x := q + [k - 1];
      var a, b := Direct(syn, kids[..k - 1], q), DirectNode(syn, kids[k - 1], x);
      assert kids[..k][..k - 1] == kids[..k - 1];
      KidsUses(syn, root, q, k - 1, s);
      NodeUses(syn, root, q, k - 1, s);
      UsesOfAppend(s, a, b);
      forall u: Use ensures InFirst(q, k, u.prop) <==> InFirst(q, k - 1, u.prop) || AtOrUnder(x, u.prop) {
        AtChild(q, k - 1, u.prop);
      }
      DistinctAppend(UsesOf(s, a), UsesOf(s, b), q, k - 1);
    }
  }

  lemma DistinctAppend(a: seq<Use>, b: seq<Use>, q: Path, i: nat)
    requires Distinct(a) && Distinct(b)
    requires forall u :: u in a ==> InFirst(q, i, u.prop)
    requires forall u :: u in b ==> AtOrUnder(q + [i], u.prop)
    ensures Distinct(a + b)
  {
    forall u | u in b ensures !InFirst(q, i, u.prop) {
      AtChild(q, i, u.prop);
    }
  }

  lemma {:induction false} NodeUses(syn: Syntax, root: Node, q: Path, i: nat, s: Path)
    requires Valid(root, q) && InnerScope(syn, root, q) == Some(s) && i < |Kids(NodeAt(root, q).value)|
    ensures var n, x := Kids(NodeAt(root, q).value)[i], q + [i];
            var us := UsesOf(s, DirectNode(syn, n, x));
            && Distinct(us)
            && forall u :: u in us <==> UsedFrom(syn, root, s, u) && AtOrUnder(x, u.prop)
    decreases NodeAt(root, q).value, 0, 0
  {
    var n, x := Kids(NodeAt(root, q).value)[i], q + [i];
    assert x[..|q|] == q && NodeAt(root, x) == Some(n) && NearestScope(syn, root, x) == Some(s);
    var inner := InnerScope(syn, root, x).value;
    var deep := UsesOf(inner, Direct(syn, Kids(n), x));
    KidsUses(syn, root, x, |Kids(n)|, inner);
    assert Kids(n)[..|Kids(n)|] == Kids(n);
    BelowNode(syn, root, x, inner, deep);
    if IsScope(syn, n) {
      ScopeShape(syn, n, x, s);
      ScopeUses(syn, root, x, s, deep);
    } else {
      PlainShape(syn, n, x, s);
      PlainUses(syn, root, x, s, deep);
    }
  }

  function OwnUse(syn: Syntax, n: Node, x: Path, s: Path): seq<Use>
  {
    if IsProp(syn, n) && Names(syn, n) != [] then [Use(s, x)] else []
  }

  lemma PlainUses(syn: Syntax, root: Node, x: Path, s: Path, deep: seq<Use>)
    requires Valid(root, x) && NearestScope(syn, root, x) == Some(s)
    requires Distinct(deep)
    requires forall u :: u in deep <==> UsedFrom(syn, root, s, u) && Under(x, u.prop)
    ensures var us := OwnUse(syn, NodeAt(root, x).value, x, s) + deep;
            && Distinct(us)
            && forall u :: u in us <==> UsedFrom(syn, root, s, u) && AtOrUnder(x, u.prop)
  {
  }

  lemma ScopeUses(syn: Syntax, root: Node, x: Path, s: Path, deep: seq<Use>)
    requires ScopeAt(syn, root, x) && NearestScope(syn, root, x) == Some(s)
    requires Distinct(deep)
    requires forall u :: u in deep <==> UsedFrom(syn, root, x, u) && Under(x, u.prop)
    ensures var us := OwnUse(syn, NodeAt(root, x).value, x, s) + if IsNamed(syn, root, x) then deep else [];
            && Distinct(us)
            && forall u :: u in us <==> UsedFrom(syn, root, s, u) && AtOrUnder(x, u.prop)
  {
    forall u: Use | Under(x, u.prop)
      ensures UsedFrom(syn, root, s, u) <==> IsNamed(syn, root, x) && UsedFrom(syn, root, x, u)
    {
      NearestWithin(syn, root, x, u.prop);
      if NearestScope(syn, root, u.prop) == Some(u.item) {
        KeptThrough(syn, root, s, x, u.item);
      }
    }
  }

  /** Every valid position under `x` lies in one of its children. */
  lemma BelowNode(syn: Syntax, root: Node, x: Path, s: Path, us: seq<Use>)
    requires Valid(root, x)
    requires forall u :: u in us <==> UsedFrom(syn, root, s, u) && InFirst(x, |Kids(NodeAt(root, x).value)|, u.prop)
    ensures forall u :: u in us <==> UsedFrom(syn, root, s, u) && Under(x, u.prop)
  {
    forall u: Use | PropAt(syn, root, u.prop) && Under(x, u.prop)
      ensures InFirst(x, |Kids(NodeAt(root, x).value)|, u.prop)
    {
      ChildExists(root, x, u.prop);
    }
  }

  /** The uses of a child that opens a scope: itself as a property and, when it is named, what its item took. */
  lemma ScopeShape(syn: Syntax, n: Node, x: Path, s: Path)
    requires IsScope(syn, n)
    ensures UsesOf(s, DirectNode(syn, n, x)) ==
            OwnUse(syn, n, x, s)
            + if IsProp(syn, n) && Names(syn, n) != [] then UsesOf(x, Direct(syn, Kids(n), x)) else []
  {
    assert DirectNode(syn, n, x) == OwnPieces(syn, n, x);
    OwnPiecesUses(syn, n, x, s);
  }

  /** The uses of any other child: itself as a property, then what lies below it. */
  lemma PlainShape(syn: Syntax, n: Node, x: Path, s: Path)
    requires !IsScope(syn, n)
    ensures UsesOf(s, DirectNode(syn, n, x)) == OwnUse(syn, n, x, s) + UsesOf(s, Direct(syn, Kids(n), x))
  {
    assert n.Text? ==> Direct(syn, Kids(n), x) == [];
    assert DirectNode(syn, n, x) == OwnPieces(syn, n, x) + Direct(syn, Kids(n), x);
    UsesOfAppend(s, OwnPieces(syn, n, x), Direct(syn, Kids(n), x));
    OwnPiecesUses(syn, n, x, s);
  }

  function OwnPieces(syn: Syntax, n: Node, x: Path): seq<Piece>
  {
    if IsProp(syn, n) then [PieceTree(syn, n, x)] else []
  }

  lemma OwnPiecesUses(syn: Syntax, n: Node, x: Path, s: Path)
    ensures UsesOf(s, OwnPieces(syn, n, x)) ==
            OwnUse(syn, n, x, s)
            + if IsScope(syn, n) && IsProp(syn, n) && Names(syn, n) != [] then UsesOf(x, Direct(syn, Kids(n), x)) else []
  {
    if IsProp(syn, n) {
      PieceShape(syn, n, x);
      UsesOfOne(s, PieceTree(syn, n, x));
    }
  }

  lemma PieceShape(syn: Syntax, n: Node, x: Path)
    requires n.Element?
    ensures var piece := PieceTree(syn, n, x);
            && piece.at == x && piece.names == Names(syn, n)
            && piece.inner == if IsScope(syn, n) then UsesOf(x, Direct(syn, Kids(n), x)) else []
  {
    assert ItemTree(syn, n, x) == Build(syn, n, x, Direct(syn, n.children, x));
  }

  lemma UsesOfOne(s: Path, piece: Piece)
    ensures UsesOf(s, [piece]) == if piece.names == [] then [] else [Use(s, piece.at)] + piece.inner
  {
    var ps := [piece];
    assert ps[..0] == [] && UsesOf(s, ps[..0]) == [];
  }

  // ------------------------------------------------------------------------------- conservation

  /** The value of the property element at `prop` went into the item at `item`, nested in the top-level item at `top`. */
  datatype Captured = Captured(top: Path, item: Path, prop: Path)

  function Tagged(t: Path, us: seq<Use>): seq<Captured>
  {
    seq(|us|, k requires 0 <= k < |us| => Captured(t, us[k].item, us[k].prop))
  }

  /** Everything the top-level items took from the document, item by item. */
  function Captures(tops: seq<Top>): seq<Captured>
  {
    if tops == [] then []
    else Captures(tops[..|tops| - 1]) + Tagged(tops[|tops| - 1].at, tops[|tops| - 1].item.used)
  }

  /** What the program should capture: the nearest item of the property, in its outermost item, provided
      every scope in between is a named property. */
  ghost predicate Belongs(syn: Syntax, root: Node, c: Captured)
  {
    && IsNamed(syn, root, c.prop) && NearestScope(syn, root, c.prop) == Some(c.item)
    && c.top == TopOf(syn, root, c.item) && Kept(syn, root, c.item)
  }

  lemma {:induction false} CapturesAppend(a: seq<Top>, b: seq<Top>)
    ensures Captures(a + b) == Captures(a) + Captures(b)
    decreases |b|
  {
    if b == [] {
      assert a + b == a;
    } else {
      assert (a + b)[..|a + b| - 1] == a + b[..|b| - 1];
      CapturesAppend(a, b[..|b| - 1]);
    }
  }

  lemma {:induction false} TopWithin(syn: Syntax, root: Node, x: Path, t: Path)
    requires ScopeAt(syn, root, x) && NearestScope(syn, root, x).None? && AtOrUnder(x, t)
    ensures TopOf(syn, root, t) == x
    decreases |t|
  {
    if t != x {
      NearestWithin(syn, root, x, t);
      NearestScopeIsAbove(syn, root, t);
      TopWithin(syn, root, x, NearestScope(syn, root, t).value);
    }
  }

  /** The captures of the top-level item at `x` are what belongs to `x` or below. */
  lemma TopCaptures(syn: Syntax, root: Node, x: Path)
    requires ScopeAt(syn, root, x) && NearestScope(syn, root, x).None?
    ensures var cs := Tagged(x, ItemTree(syn, NodeAt(root, x).value, x).used);
            && Distinct(cs)
            && forall c :: c in cs <==> Belongs(syn, root, c) && AtOrUnder(x, c.prop)
  {
    var n := NodeAt(root, x).value;
    var us := UsesOf(x, Direct(syn, Kids(n), x));
    KidsUses(syn, root, x, |Kids(n)|, x);
    assert Kids(n)[..|Kids(n)|] == Kids(n);
    BelowNode(syn, root, x, x, us);
    assert ItemTree(syn, n, x).used == us;
    TaggedMembers(x, us);
    forall c: Captured | Under(x, c.prop) && NearestScope(syn, root, c.prop) == Some(c.item)
      ensures Belongs(syn, root, c) <==> c.top == x && UsedFrom(syn, root, x, Use(c.item, c.prop))
    {
      NearestWithin(syn, root, x, c.prop);
      TopWithin(syn, root, x, c.item);
    }
  }

  lemma TaggedMembers(t: Path, us: seq<Use>)
    requires Distinct(us)
    ensures Distinct(Tagged(t, us))
    ensures forall c :: c in Tagged(t, us) <==> c.top == t && Use(c.item, c.prop) in us
  {
    forall c ensures c in Tagged(t, us) <==> c.top == t && Use(c.item, c.prop) in us {
      if c.top == t && Use(c.item, c.prop) in us {
        var k :| 0 <= k < |us| && us[k] == Use(c.item, c.prop);
        assert Tagged(t, us)[k] == c;
      }
    }
    forall i, j | 0 <= i < j < |us| ensures Tagged(t, us)[i] != Tagged(t, us)[j] {
      assert us[i] != us[j];
    }
  }

  lemma {:induction false} KidsCaptures(syn: Syntax, root: Node, q: Path, k: nat)
    requires Valid(root, q) && InnerScope(syn, root, q).None? && k <= |Kids(NodeAt(root, q).value)|
    ensures var cs := Captures(TopsKids(syn, Kids(NodeAt(root, q).value)[..k], q));
            && Distinct(cs)
            && forall c :: c in cs <==> Belongs(syn, root, c) && InFirst(q, k, c.prop)
    decreases NodeAt(root, q).value, 0, k
  {
    if k > 0 {
      var kids := Kids(NodeAt(root, q).value);
      var x := q + [k - 1];
      var a, b := TopsKids(syn, kids[..k - 1], q), TopsNode(syn, kids[k - 1], x);
      assert kids[..k][..k - 1] == kids[..k - 1];
      KidsCaptures(syn, root, q, k - 1);
      NodeCaptures(syn, root, q, k - 1);
      CapturesAppend(a, b);
      forall c: Captured ensures InFirst(q, k, c.prop) <==> InFirst(q, k - 1, c.prop) || AtOrUnder(x, c.prop) {
        AtChild(q, k - 1, c.prop);
      }
      forall c | c in Captures(b) ensures !InFirst(q, k - 1, c.prop) {
        AtChild(q, k - 1, c.prop);
      }
    }
  }

  lemma {:induction false} NodeCaptures(syn: Syntax, root: Node, q: Path, i: nat)
    requires Valid(root, q) && InnerScope(syn, root, q).None? && i < |Kids(NodeAt(root, q).value)|
    ensures var n, x := Kids(NodeAt(root, q).value)[i], q + [i];
            var cs := Captures(TopsNode(syn, n, x));
            && Distinct(cs)
            && forall c :: c in cs <==> Belongs(syn, root, c) && AtOrUnder(x, c.prop)
    decreases NodeAt(root, q).value, 0, 0
  {
    var n, x := Kids(NodeAt(root, q).value)[i], q + [i];
    assert x[..|q|] == q && NodeAt(root, x) == Some(n) && NearestScope(syn, root, x).None?;
    if IsScope(syn, n) {
      TopCaptures(syn, root, x);
      CapturesOne(Top(x, ItemTree(syn, n, x)));
    } else {
      KidsCaptures(syn, root, x, |Kids(n)|);
      assert Kids(n)[..|Kids(n)|] == Kids(n);
      assert TopsNode(syn, n, x) == TopsKids(syn, Kids(n), x);
      forall c: Captured | PropAt(syn, root, c.prop) && Under(x, c.prop) ensures InFirst(x, |Kids(n)|, c.prop) {
        ChildExists(root, x, c.prop);
      }
    }
  }

  lemma CapturesOne(t: Top)
    ensures Captures([t]) == Tagged(t.at, t.item.used)
  {
    var ts := [t];
    assert ts[..0] == [] && Captures(ts[..0]) == [];
  }

  /** Conservation: an extraction captures exactly the property elements that belong somewhere, each of
      them once: in its nearest scope's item, inside its one outermost item. */
  lemma Conservation(syn: Syntax, root: Node)
    requires !IsScope(syn, root)
    ensures var cs := Captures(Extracted(syn, root));
            && Distinct(cs)
            && forall c :: c in cs <==> Belongs(syn, root, c)
  {
    ExtractedIsOutermost(syn, root);
    KidsCaptures(syn, root, [], |Kids(root)|);
    assert Kids(root)[..|Kids(root)|] == Kids(root);
    forall c: Captured | Belongs(syn, root, c) ensures InFirst([], |Kids(root)|, c.prop) {
      NearestScopeIsAbove(syn, root, c.prop);
      assert c.prop[..0] == [];
      ChildExists(root, [], c.prop);
    }
  }

  /** A scope inside another scope that is not a property with a name. */
  predicate Unnamed(syn: Syntax, root: Node, s: Path)
  {
    ScopeAt(syn, root, s) && NearestScope(syn, root, s).Some? && !IsNamed(syn, root, s)
  }

  lemma AtOrUnderTrans(a: Path, b: Path, c: Path)
    requires AtOrUnder(a, b) && Under(b, c)
    ensures Under(a, c)
  {
    assert c[..|a|] == b[..|a|];
  }

  lemma {:induction false} NamedAboveIsKept(syn: Syntax, root: Node, t: Path)
    requires ScopeAt(syn, root, t)
    requires forall s :: Unnamed(syn, root, s) ==> !AtOrUnder(s, t)
    ensures Kept(syn, root, t)
    decreases |t|
  {
    if NearestScope(syn, root, t).Some? {
      var up := NearestScope(syn, root, t).value;
      NearestScopeIsAbove(syn, root, t);
      assert AtOrUnder(t, t) && !Unnamed(syn, root, t);
      forall s | Unnamed(syn, root, s) ensures !AtOrUnder(s, up) {
        if AtOrUnder(s, up) {
          AtOrUnderTrans(s, up, t);
        }
      }
      NamedAboveIsKept(syn, root, up);
    }
  }

  /** Exactly the lost elements: a property is captured, and then in one place, if and only if it has a
      name, lies in a scope, and no nested scope around it is without a name. */
  lemma CapturedIff(syn: Syntax, root: Node, x: Path)
    requires !IsScope(syn, root)
    ensures (exists c :: c in Captures(Extracted(syn, root)) && c.prop == x)
            <==> IsNamed(syn, root, x) && NearestScope(syn, root, x).Some?
                 && forall s :: Unnamed(syn, root, s) ==> !Under(s, x)
    ensures forall c, d :: c in Captures(Extracted(syn, root)) && d in Captures(Extracted(syn, root)) && c.prop == d.prop == x ==>
              c == d
  {
    Conservation(syn, root);
    if IsNamed(syn, root, x) && NearestScope(syn, root, x).Some? {
      var t := NearestScope(syn, root, x).value;
      NearestScopeIsAbove(syn, root, x);
      var c := Captured(TopOf(syn, root, t), t, x);
      if s :| Unnamed(syn, root, s) && Under(s, x) {
        NearestWithin(syn, root, s, x);
        UnnamedIsNotKept(syn, root, s, t);
      } else {
        forall s | Unnamed(syn, root, s) ensures !AtOrUnder(s, t) {
          if AtOrUnder(s, t) {
            AtOrUnderTrans(s, t, x);
          }
        }
        NamedAboveIsKept(syn, root, t);
        assert Belongs(syn, root, c);
      }
    }
  }

  /** When nested scopes are named, a property inside a scope is captured if and only if it has a name. */
  lemma NamedScopesLoseNothing(syn: Syntax, root: Node, x: Path)
    requires !IsScope(syn, root) && forall s :: !Unnamed(syn, root, s)
    requires PropAt(syn, root, x) && NearestScope(syn, root, x).Some?
    ensures var item := NearestScope(syn, root, x).value;
            Captured(TopOf(syn, root, item), item, x) in Captures(Extracted(syn, root)) <==> IsNamed(syn, root, x)
  {
    NearestScopeIsAbove(syn, root, x);
    if IsNamed(syn, root, x) {
      NamedAboveIsKept(syn, root, NearestScope(syn, root, x).value);
    }
    Conservation(syn, root);
  }

  lemma {:induction false} UnnamedIsNotKept(syn: Syntax, root: Node, s: Path, t: Path)
    requires Unnamed(syn, root, s) && AtOrUnder(s, t)
    ensures !Kept(syn, root, t)
    decreases |t|
  {
    TopIsOuter(syn, root, t);
    if t == s {
      NearestScopeIsAbove(syn, root, s);
      TopIsOuter(syn, root, NearestScope(syn, root, s).value);
    } else {
      NearestWithin(syn, root, s, t);
      NearestScopeIsAbove(syn, root, t);
      UnnamedIsNotKept(syn, root, s, NearestScope(syn, root, t).value);
      TopIsOuter(syn, root, NearestScope(syn, root, t).value);
    }
  }

  lemma {:induction false} TopIsOuter(syn: Syntax, root: Node, t: Path)
    ensures |TopOf(syn, root, t)| <= |t|
    decreases |t|
  {
    if NearestScope(syn, root, t).Some? {
      NearestScopeIsAbove(syn, root, t);
      TopIsOuter(syn, root, NearestScope(syn, root, t).value);
    }
  }

  /** A nested scope without a name is dropped, with every property inside it. */
  lemma UnnamedScopeIsDropped(syn: Syntax, root: Node, s: Path, c: Captured)
    requires !IsScope(syn, root) && Unnamed(syn, root, s)
    requires c in Captures(Extracted(syn, root))
    ensures !AtOrUnder(s, c.item)
  {
    Conservation(syn, root);
    if AtOrUnder(s, c.item) {
      UnnamedIsNotKept(syn, root, s, c.item);
    }
  }
}
