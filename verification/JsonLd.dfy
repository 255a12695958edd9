/** Flattening parsed JSON-LD: lists and `@graph` containers are opened recursively. */
module JsonLd {
  import opened Prelude
  import opened Json
  import opened PyText

  const GRAPH := "@graph"
  const TYPE := "@type"

  /** An object whose `@graph` is a list. */
  predicate IsContainer(x: Json)
  {
    x.Obj? && GRAPH in x.fields && x.fields[GRAPH].Arr?
  }

  function Flatten(x: Json): seq<Json>
    decreases x, 1
  {
    match x
    case Arr(items) => FlattenAll(items)
    case Obj(fields) => if IsContainer(x) then FlattenAll(fields[GRAPH].items) + Emit(x) else Emit(x)
    case _ => []
  }

  function FlattenAll(items: seq<Json>): seq<Json>
    decreases items, 0
  {
    if items == [] then [] else FlattenAll(items[..|items| - 1]) + Flatten(items[|items| - 1])
  }

  /** What an object node contributes itself: a container only when it is typed, and without its graph. */
  function Emit(x: Json): seq<Json>
    requires x.Obj?
  {
    if !IsContainer(x) then [x]
    else if Truthy(Get(x.fields, TYPE)) then [Obj(x.fields - {GRAPH})]
    else []
  }

  /** The recursive extractor with its output list. */
  method FlattenJsonLd(parsed: Json) returns (out: seq<Json>)
    ensures out == Flatten(parsed)
    decreases parsed
  {
    out := [];
    if parsed.Arr? {
      for i := 0 to |parsed.items|
        invariant out == FlattenAll(parsed.items[..i])
      {
        var inner := FlattenJsonLd(parsed.items[i]);
        out := out + inner;
        assert parsed.items[..i + 1][..i] == parsed.items[..i];
      }
      assert parsed.items[..|parsed.items|] == parsed.items;
    } else if parsed.Obj? {
      var graph := Get(parsed.fields, GRAPH);
      if graph.Arr? {
        for i := 0 to |graph.items|
          invariant out == FlattenAll(graph.items[..i])
        {
          var inner := FlattenJsonLd(graph.items[i]);
          out := out + inner;
          assert graph.items[..i + 1][..i] == graph.items[..i];
        }
        assert graph.items[..|graph.items|] == graph.items;
        if Truthy(Get(parsed.fields, TYPE)) {
          var node := map k | k in parsed.fields && k != GRAPH :: parsed.fields[k];
          assert node == parsed.fields - {GRAPH};
          out := out + [Obj(node)];
        }
      } else {
        out := out + [parsed];
      }
    }
  }

  /** Flattening distributes over concatenation of lists. */
  lemma {:induction false} FlattenAppend(a: seq<Json>, b: seq<Json>)
    ensures Flatten(Arr(a + b)) == Flatten(Arr(a)) + Flatten(Arr(b))
    decreases |b|
  {
    if b == [] {
      assert a + b == a;
    } else {
      var rest, last := b[..|b| - 1], b[|b| - 1];
      FlattenAppend(a, rest);
      assert (a + b)[..|a + b| - 1] == a + rest;
      assert FlattenAll(a + b) == FlattenAll(a + rest) + Flatten(last);
      assert FlattenAll(b) == FlattenAll(rest) + Flatten(last);
    }
  }

  predicate IsNode(x: Json) { x.Obj? && !IsContainer(x) }

  /** Only objects without a list-valued `@graph` come out. */
  lemma {:induction false} FlattenEmitsNodes(x: Json)
    ensures forall y :: y in Flatten(x) ==> IsNode(y)
    decreases x, 1
  {
    match x
    case Arr(items) => FlattenAllEmitsNodes(items);
    case Obj(fields) =>
      if IsContainer(x) {
        FlattenAllEmitsNodes(fields[GRAPH].items);
      }
    case _ =>
  }

  lemma {:induction false} FlattenAllEmitsNodes(items: seq<Json>)
    ensures forall y :: y in FlattenAll(items) ==> IsNode(y)
    decreases items, 0
  {
    if items != [] {
      FlattenAllEmitsNodes(items[..|items| - 1]);
      FlattenEmitsNodes(items[|items| - 1]);
    }
  }

  lemma {:induction false} NodesAreFixed(nodes: seq<Json>)
    requires forall y :: y in nodes ==> IsNode(y)
    ensures FlattenAll(nodes) == nodes
  {
    if nodes != [] {
      var last := nodes[|nodes| - 1];
      assert IsNode(last) && Flatten(last) == [last];
      NodesAreFixed(nodes[..|nodes| - 1]);
    }
  }

  /** Flattening the flat list again changes nothing. */
  lemma FlattenIdempotent(x: Json)
    ensures Flatten(Arr(Flatten(x))) == Flatten(x)
  {
    FlattenEmitsNodes(x);
    NodesAreFixed(Flatten(x));
  }

  // --------------------------------------------------- every reachable object, exactly once, in order

  /** The values that flattening descends into. */
  function Children(x: Json): seq<Json>
  {
    if x.Arr? then x.items else if IsContainer(x) then x.fields[GRAPH].items else []
  }

  type Path = seq<nat>

  /** The value reached from `x` by child positions, if there is one. */
  function At(x: Json, p: Path): Option<Json>
    decreases p
  {
    if p == [] then Some(x)
    else if p[0] < |Children(x)| then At(Children(x)[p[0]], p[1..])
    else None
  }

  /** Post-order on paths: children from left to right, then the node itself. */
  predicate Before(p: Path, q: Path)
    decreases p
  {
    if q == [] then p != []
    else p != [] && (p[0] < q[0] || (p[0] == q[0] && Before(p[1..], q[1..])))
  }

  ghost predicate InOrder(ps: seq<Path>)
  {
    forall i, j :: 0 <= i < j < |ps| ==> Before(ps[i], ps[j])
  }

  function Prefixed(i: nat, ps: seq<Path>): seq<Path>
  {
    seq(|ps|, k requires 0 <= k < |ps| => [i] + ps[k])
  }

  /** The paths of the object nodes of `x`. */
  function NodePaths(x: Json): seq<Path>
    decreases x, 1
  {
    match x
    case Arr(items) => ChildPaths(items)
    case Obj(fields) => (if IsContainer(x) then ChildPaths(fields[GRAPH].items) else []) + [[]]
    case _ => []
  }

  function ChildPaths(items: seq<Json>): seq<Path>
    decreases items, 0
  {
    if items == [] then []
    else ChildPaths(items[..|items| - 1]) + Prefixed(|items| - 1, NodePaths(items[|items| - 1]))
  }

  /** What the objects at `ps` contribute, one after the other. */
  function EmitAll(x: Json, ps: seq<Path>): seq<Json>
  {
    if ps == [] then []
    else
      var y := At(x, ps[|ps| - 1]);
      EmitAll(x, ps[..|ps| - 1]) + if y.Some? && y.value.Obj? then Emit(y.value) else []
  }

  ghost predicate IsObjectAt(x: Json, p: Path)
  {
    At(x, p).Some? && At(x, p).value.Obj?
  }

  /** `NodePaths` lists exactly the reachable objects, in post-order (hence each once). */
  lemma {:induction false} NodePathsExact(x: Json)
    ensures InOrder(NodePaths(x))
    ensures forall p :: p in NodePaths(x) <==> IsObjectAt(x, p)
    decreases x, 1
  {
    var kids := Children(x);
    if x.Arr? || IsContainer(x) {
      ChildPathsExact(kids);
    }
    forall p ensures p in NodePaths(x) <==> IsObjectAt(x, p) {
      if p != [] {
        assert IsObjectAt(x, p) <==> p[0] < |kids| && IsObjectAt(kids[p[0]], p[1..]);
      }
    }
  }

  ghost predicate BelowFirst(ps: seq<Path>, n: nat)
  {
    forall p :: p in ps ==> p != [] && p[0] < n
  }

  lemma {:induction false} ChildPathsExact(items: seq<Json>)
    ensures InOrder(ChildPaths(items))
    ensures BelowFirst(ChildPaths(items), |items|)
    ensures forall p :: p in ChildPaths(items) <==> p != [] && p[0] < |items| && IsObjectAt(items[p[0]], p[1..])
    decreases items, 0
  {
    if items != [] {
      var n := |items| - 1;
      var a, b := ChildPaths(items[..n]), NodePaths(items[n]);
      ChildPathsExact(items[..n]);
      NodePathsExact(items[n]);
      forall i, j | 0 <= i < j < |a + Prefixed(n, b)| ensures Before((a + Prefixed(n, b))[i], (a + Prefixed(n, b))[j]) {
        if i < |a| {
          assert (a + Prefixed(n, b))[i] in a;
        } else {
          assert ([n] + b[i - |a|])[1..] == b[i - |a|] && ([n] + b[j - |a|])[1..] == b[j - |a|];
        }
      }
      forall p: Path ensures p in Prefixed(n, b) <==> p != [] && p[0] == n && IsObjectAt(items[n], p[1..]) {
        PrefixedMember(n, b, p);
      }
    }
  }

  lemma PrefixedMember(i: nat, ps: seq<Path>, p: Path)
    ensures p in Prefixed(i, ps) <==> p != [] && p[0] == i && p[1..] in ps
  {
    if p != [] && p[0] == i && p[1..] in ps {
      var k :| 0 <= k < |ps| && ps[k] == p[1..];
      assert Prefixed(i, ps)[k] == p;
    }
    if p in Prefixed(i, ps) {
      var k :| 0 <= k < |ps| && Prefixed(i, ps)[k] == p;
      assert p[1..] == ps[k];
    }
  }

  lemma {:induction false} EmitAllAppend(x: Json, a: seq<Path>, b: seq<Path>)
    ensures EmitAll(x, a + b) == EmitAll(x, a) + EmitAll(x, b)
    decreases |b|
  {
    if b == [] {
      assert a + b == a;
    } else {
      assert (a + b)[..|a + b| - 1] == a + b[..|b| - 1];
      EmitAllAppend(x, a, b[..|b| - 1]);
    }
  }

  lemma {:induction false} EmitAllPrefixed(x: Json, i: nat, ps: seq<Path>)
    requires i < |Children(x)|
    ensures EmitAll(x, Prefixed(i, ps)) == EmitAll(Children(x)[i], ps)
  {
    if ps != [] {
      var n := |ps| - 1;
      assert Prefixed(i, ps)[..n] == Prefixed(i, ps[..n]);
      assert ([i] + ps[n])[1..] == ps[n];
      EmitAllPrefixed(x, i, ps[..n]);
    }
  }

  /** The flat list is what each reachable object contributes, in post-order: one entry per object that
      is not a container, one per typed container, none for an untyped one. */
  lemma {:induction false} FlattenIsEmission(x: Json)
    ensures Flatten(x) == EmitAll(x, NodePaths(x))
    decreases x, 1
  {
    var kids := Children(x);
    if x.Arr? {
      FlattenAllIsEmission(x, kids);
    } else if x.Obj? {
      if IsContainer(x) {
        FlattenAllIsEmission(x, kids);
        EmitAllAppend(x, ChildPaths(kids), [[]]);
      }
      var root: seq<Path> := [[]];
      assert root[..0] == [];
      assert EmitAll(x, root) == Emit(x);
    }
  }

  lemma {:induction false} FlattenAllIsEmission(x: Json, items: seq<Json>)
    requires items <= Children(x)
    ensures FlattenAll(items) == EmitAll(x, ChildPaths(items))
    decreases items, 0
  {
    if items != [] {
      var n := |items| - 1;
      FlattenAllIsEmission(x, items[..n]);
      FlattenIsEmission(items[n]);
      EmitAllAppend(x, ChildPaths(items[..n]), Prefixed(n, NodePaths(items[n])));
      EmitAllPrefixed(x, n, NodePaths(items[n]));
    }
  }

  // ---------------------------------------------------------------- the same in terms of the JSON itself

  /** `y` is element `i` of the list `x`, or of the list under "@graph" in the object `x`. */
  predicate Step(x: Json, i: nat, y: Json)
  {
    || (x.Arr? && i < |x.items| && y == x.items[i])
    || (x.Obj? && "@graph" in x.fields && x.fields["@graph"].Arr?
        && i < |x.fields["@graph"].items| && y == x.fields["@graph"].items[i])
  }

  /** The steps `p` lead from `x` through these values. */
  ghost predicate Chain(x: Json, p: Path, vs: seq<Json>)
  {
    |vs| == |p| + 1 && vs[0] == x && forall k :: 0 <= k < |p| ==> Step(vs[k], p[k], vs[k + 1])
  }

  ghost predicate Reaches(x: Json, p: Path, y: Json)
  {
    exists vs :: Chain(x, p, vs) && vs[|p|] == y
  }

  lemma {:induction false} AtIsReached(x: Json, p: Path, y: Json)
    ensures At(x, p) == Some(y) <==> Reaches(x, p, y)
    decreases |p|
  {
    if p == [] {
      assert Chain(x, p, [x]);
    } else {
      if At(x, p) == Some(y) {
        var next := Children(x)[p[0]];
        AtIsReached(next, p[1..], y);
        var vs :| Chain(next, p[1..], vs) && vs[|p| - 1] == y;
        ChainCons(x, p, next, vs);
      }
      if Reaches(x, p, y) {
        var vs :| Chain(x, p, vs) && vs[|p|] == y;
        assert Step(x, p[0], vs[1]) && Children(x)[p[0]] == vs[1];
        ChainTail(x, p, vs);
        assert Reaches(vs[1], p[1..], y) by {
          assert vs[1..][|p| - 1] == y;
        }
        AtIsReached(vs[1], p[1..], y);
      }
    }
  }

  lemma ChainCons(x: Json, p: Path, next: Json, vs: seq<Json>)
    requires p != [] && Step(x, p[0], next) && Chain(next, p[1..], vs)
    ensures Chain(x, p, [x] + vs) && ([x] + vs)[|p|] == vs[|p| - 1]
  {
    forall k | 0 <= k < |p| ensures Step(([x] + vs)[k], p[k], ([x] + vs)[k + 1]) {
      if k > 0 {
        assert Step(vs[k - 1], p[1..][k - 1], vs[k]);
      }
    }
  }

  lemma ChainTail(x: Json, p: Path, vs: seq<Json>)
    requires p != [] && Chain(x, p, vs)
    ensures Chain(vs[1], p[1..], vs[1..])
  {
    forall k | 0 <= k < |p| - 1 ensures Step(vs[1..][k], p[1..][k], vs[1..][k + 1]) {
      assert Step(vs[k + 1], p[k + 1], vs[k + 2]);
    }
  }

  /** An object whose "@graph" is not a list gives itself; one whose "@graph" is a list gives, when its "@type"
      is true, an object with the same entries without the graph, and otherwise nothing. */
  predicate Gives(o: Json, y: Json)
  {
    && o.Obj? && y.Obj?
    && if "@graph" in o.fields && o.fields["@graph"].Arr? then
         && "@type" in o.fields && Truthy(o.fields["@type"])
         && y.fields.Keys == o.fields.Keys - {"@graph"}
         && forall k | k in y.fields :: y.fields[k] == o.fields[k]
       else y == o
  }

  /** The objects that give something. */
  predicate GivesSome(o: Json)
  {
    o.Obj? && ("@graph" in o.fields && o.fields["@graph"].Arr? ==> "@type" in o.fields && Truthy(o.fields["@type"]))
  }

  lemma EmitIsGiven(o: Json)
    requires o.Obj?
    ensures |Emit(o)| == if GivesSome(o) then 1 else 0
    ensures forall y :: y in Emit(o) <==> Gives(o, y)
  {
    if IsContainer(o) {
      var node := Obj(o.fields - {GRAPH});
      forall y | Gives(o, y) ensures y == node {
        assert y.fields == o.fields - {GRAPH};
      }
      assert Truthy(Get(o.fields, TYPE)) ==> Gives(o, node);
    }
  }

  /** `out` is given, entry by entry, by the objects at the paths `ps`. */
  ghost predicate GivenBy(x: Json, ps: seq<Path>, out: seq<Json>)
  {
    |out| == |ps| && forall k :: 0 <= k < |ps| ==> Given(x, ps[k], out[k])
  }

  ghost predicate Given(x: Json, p: Path, y: Json)
  {
    exists o :: Reaches(x, p, o) && Gives(o, y)
  }

  lemma GivenAppend(x: Json, ps: seq<Path>, out: seq<Json>, p: Path, y: Json)
    requires GivenBy(x, ps, out) && Given(x, p, y)
    ensures GivenBy(x, ps + [p], out + [y])
  {
  }

  function GivesAt(x: Json): Path -> bool
  {
    (p: Path) => At(x, p).Some? && GivesSome(At(x, p).value)
  }

  function GivingPaths(x: Json, ps: seq<Path>): seq<Path>
  {
    Filter(ps, GivesAt(x))
  }

  lemma {:induction false} EmittedIsGiven(x: Json, ps: seq<Path>)
    ensures GivenBy(x, GivingPaths(x, ps), EmitAll(x, ps))
  {
    if ps != [] {
      var rest, p := ps[..|ps| - 1], ps[|ps| - 1];
      EmittedIsGiven(x, rest);
      var y := At(x, p);
      if y.Some? && y.value.Obj? {
        EmitIsGiven(y.value);
        AtIsReached(x, p, y.value);
        if GivesSome(y.value) {
          var given := Emit(y.value)[0];
          assert Gives(y.value, given) && Emit(y.value) == [given];
          GivenAppend(x, GivingPaths(x, rest), EmitAll(x, rest), p, given);
        }
      }
    }
  }

  lemma {:induction false} FilterInOrder(ps: seq<Path>, f: Path -> bool)
    requires InOrder(ps)
    ensures InOrder(Filter(ps, f))
  {
    if ps != [] {
      var rest, last := ps[..|ps| - 1], ps[|ps| - 1];
      assert InOrder(rest);
      FilterInOrder(rest, f);
      forall p | p in Filter(rest, f) ensures Before(p, last) {
        FilterMember(rest, f, p);
        var k :| 0 <= k < |rest| && rest[k] == p;
        assert Before(ps[k], ps[|ps| - 1]);
      }
      InOrderAppend(Filter(rest, f), last);
    }
  }

  lemma InOrderAppend(ps: seq<Path>, last: Path)
    requires InOrder(ps) && forall p :: p in ps ==> Before(p, last)
    ensures InOrder(ps + [last])
  {
    forall i, j | 0 <= i < j < |ps + [last]| ensures Before((ps + [last])[i], (ps + [last])[j]) {
      assert (ps + [last])[i] == ps[i] && ps[i] in ps;
    }
  }

  /** The output has one entry for each path that leads to an object giving something, in post-order, and
      the entry is what that object gives. */
  lemma FlattenExact(x: Json) returns (ps: seq<Path>)
    ensures InOrder(ps) && forall p :: p in ps <==> exists o :: Reaches(x, p, o) && GivesSome(o)
    ensures GivenBy(x, ps, Flatten(x))
  {
    ps := GivingPaths(x, NodePaths(x));
    NodePathsExact(x);
    FilterInOrder(NodePaths(x), GivesAt(x));
    FlattenIsEmission(x);
    EmittedIsGiven(x, NodePaths(x));
    forall p ensures p in ps <==> exists o :: Reaches(x, p, o) && GivesSome(o) {
      FilterMember(NodePaths(x), GivesAt(x), p);
      if p in ps {
        AtIsReached(x, p, At(x, p).value);
      }
      if o :| Reaches(x, p, o) && GivesSome(o) {
        AtIsReached(x, p, o);
      }
    }
  }

  /** So a value comes out exactly when some reachable object gives it. */
  lemma FlattenMembers(x: Json, y: Json)
    ensures y in Flatten(x) <==> exists p :: Given(x, p, y)
  {
    var ps := FlattenExact(x);
    if y in Flatten(x) {
      var k :| 0 <= k < |Flatten(x)| && Flatten(x)[k] == y;
      assert Given(x, ps[k], y);
    }
    if p :| Given(x, p, y) {
      var o :| Reaches(x, p, o) && Gives(o, y);
      assert GivesSome(o) && p in ps;
      var k :| 0 <= k < |ps| && ps[k] == p;
      var o' :| Reaches(x, ps[k], o') && Gives(o', Flatten(x)[k]);
      AtIsReached(x, p, o);
      AtIsReached(x, p, o');
      SameGift(o, y, Flatten(x)[k]);
    }
  }

  lemma SameGift(o: Json, y: Json, z: Json)
    requires Gives(o, y) && Gives(o, z)
    ensures y == z
  {
    assert y.fields == z.fields;
  }

  // --------------------------------------------------------------------------- the script blocks

  function Joined(parts: seq<seq<Json>>): seq<Json>
  {
    if parts == [] then [] else Joined(parts[..|parts| - 1]) + parts[|parts| - 1]
  }

  /** What one script block contributes: nothing when it is blank, a marker when it does not parse, else its
      flattened value. */
  ghost predicate IsPart(raw: string, parse: string -> Result<Json, string>, part: seq<Json>)
  {
    var text := Strip(raw);
    if text == "" then part == []
    else
      match parse(text)
      case Err(reason) => part == [Obj(map["@parseError" := Str(reason)])]
      case Ok(value) => part == Flatten(value)
  }

  /** `extract_json_ld` on the texts of the script elements; `parse` is the JSON parser. */
  method ExtractJsonLd(raws: seq<string>, parse: string -> Result<Json, string>) returns (items: seq<Json>, ghost parts: seq<seq<Json>>)
    ensures items == Joined(parts) && |parts| == |raws|
    ensures forall k :: 0 <= k < |raws| ==> IsPart(raws[k], parse, parts[k])
    ensures forall x :: x in items ==> IsNode(x)
  {
    items, parts := [], [];
    for k := 0 to |raws|
      invariant items == Joined(parts) && |parts| == k
      invariant forall j :: 0 <= j < k ==> IsPart(raws[j], parse, parts[j])
      invariant forall x :: x in items ==> IsNode(x)
    {
      var found: seq<Json> := [];
      var raw := Strip(raws[k]);
      if raw != "" {
        var parsed := parse(raw);
        if parsed.Err? {
          found := [Obj(map["@parseError" := Str(parsed.error)])];
        } else {
          FlattenEmitsNodes(parsed.value);
          found := FlattenJsonLd(parsed.value);
        }
      }
      assert (parts + [found])[..k] == parts;
      items := items + found;
      parts := parts + [found];
    }
  }
}
