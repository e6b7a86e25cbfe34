/**
 utils/print-introspected-doxygen.cc: the configuration paths gathered by `StaticInformation`.
 Types, attributes and aggregations form a labelled graph; an itinerary is a list of edge numbers.
 */
module Gather {
  import opened Sequences

  /** Type numbers have sixteen bits. */
  newtype TypeId = t: nat | t < 0x1_0000

  /** What the checker of an attribute says about its values. */
  datatype Checker = PointerTo(pointee: TypeId) | ContainerOf(item: TypeId) | Plain

  datatype Attribute = Attribute(name: string, checker: Checker)

  datatype TypeInfo = TypeInfo(name: string, attributes: seq<Attribute>, ancestors: set<TypeId>)

  /** The registry of types; an entry that is missing reads as a type with neither name nor links. */
  datatype Registry = Registry(registered: seq<TypeId>, types: map<TypeId, TypeInfo>, objectType: TypeId) {
    function Info(t: TypeId): TypeInfo {
      if t in types then types[t] else TypeInfo("", [], {})
    }

    function Attributes(t: TypeId): seq<Attribute> {
      Info(t).attributes
    }

    /** A type is a child of each of its proper ancestors. */
    predicate IsChildOf(child: TypeId, t: TypeId) {
      t in Info(child).ancestors
    }

    function Name(t: TypeId): string {
      Info(t).name
    }
  }

  datatype Edge = Edge(name: string, target: TypeId)

  // ---------------------------------------------------------------- the graph

  /** Pointers to plain objects lead nowhere. */
  function AttributeEdge(r: Registry, a: Attribute): seq<Edge> {
    match a.checker
    case PointerTo(t) => if t == r.objectType then [] else [Edge(a.name, t)]
    case ContainerOf(t) => [Edge(a.name + "/[i]", t)]
    case Plain => []
  }

  function ChildEdge(r: Registry, t: TypeId, child: TypeId): seq<Edge> {
    if r.IsChildOf(child, t) then [Edge("$" + r.Name(child), child)] else []
  }

  /** An aggregation leads from either side to the other. */
  function AggregateEdge(r: Registry, t: TypeId, pair: (TypeId, TypeId)): seq<Edge> {
    if pair.1 == t then [Edge("$" + r.Name(pair.0), pair.0)]
    else if pair.0 == t then [Edge("$" + r.Name(pair.1), pair.1)]
    else []
  }

  datatype Graph = Graph(registry: Registry, aggregates: seq<(TypeId, TypeId)>) {
    /** The edges of the first attributes of a type. */
    function AttributeEdges(t: TypeId, n: nat): seq<Edge>
      requires n <= |registry.Attributes(t)|
    {
      if n == 0 then [] else AttributeEdges(t, n - 1) + AttributeEdge(registry, registry.Attributes(t)[n - 1])
    }

    /** Those of all attributes, and of the first registered types. */
    function ChildEdges(t: TypeId, n: nat): seq<Edge>
      requires n <= |registry.registered|
    {
      if n == 0 then AttributeEdges(t, |registry.Attributes(t)|)
      else ChildEdges(t, n - 1) + ChildEdge(registry, t, registry.registered[n - 1])
    }

    /** Those of all attributes and registered types, and of the first aggregations. */
    function AggregateEdges(t: TypeId, n: nat): seq<Edge>
      requires n <= |aggregates|
    {
      if n == 0 then ChildEdges(t, |registry.registered|)
      else AggregateEdges(t, n - 1) + AggregateEdge(registry, t, aggregates[n - 1])
    }

    function Edges(t: TypeId): seq<Edge> {
      AggregateEdges(t, |aggregates|)
    }
  }

  // ---------------------------------------------------------------- where the edges come from

  /** The attribute, the registered type or the aggregation an edge comes from, by its number. */
  datatype Origin = FromAttribute(i: nat) | FromType(j: nat) | FromAggregation(k: nat)

  /**
   A pointer attribute leads to its pointee, unless that is the plain object type, under its own name;
   a container attribute to its items, under its name followed by "/[i]"; a child and the other side of
   an aggregation are led to under "$" and their name.
   */
  predicate Leads(g: Graph, t: TypeId, o: Origin, e: Edge) {
    match o
    case FromAttribute(i) =>
      && i < |g.registry.Attributes(t)|
      && var a := g.registry.Attributes(t)[i];
      (a.checker == PointerTo(e.target) && e.target != g.registry.objectType && e.name == a.name)
      || (a.checker == ContainerOf(e.target) && e.name == a.name + "/[i]")
    case FromType(j) =>
      && j < |g.registry.registered|
      && g.registry.registered[j] == e.target && g.registry.IsChildOf(e.target, t) && e.name == "$" + g.registry.Name(e.target)
    case FromAggregation(k) =>
      && k < |g.aggregates|
      && (g.aggregates[k] == (t, e.target) || g.aggregates[k] == (e.target, t)) && e.name == "$" + g.registry.Name(e.target)
  }

  /** Attributes come before registered types, and these before aggregations; each go by number. */
  predicate Earlier(o: Origin, p: Origin) {
    match o
    case FromAttribute(i) => p.FromAttribute? ==> i < p.i
    case FromType(j) => !p.FromAttribute? && (p.FromType? ==> j < p.j)
    case FromAggregation(k) => p.FromAggregation? && k < p.k
  }

  predicate Below(o: Origin, i: nat, j: nat, k: nat) {
    match o
    case FromAttribute(x) => x < i
    case FromType(x) => x < j
    case FromAggregation(x) => x < k
  }

  /** Each edge comes from the origin beside it, and the origins are in order. */
  ghost predicate ComeFrom(g: Graph, t: TypeId, edges: seq<Edge>, origins: seq<Origin>) {
    && |origins| == |edges|
    && (forall n :: 0 <= n < |edges| ==> Leads(g, t, origins[n], edges[n]))
    && (forall m, n :: 0 <= m < n < |origins| ==> Earlier(origins[m], origins[n]))
  }

  /** No origin up to a point is left out. */
  ghost predicate NoneLeftOut(g: Graph, t: TypeId, origins: seq<Origin>, i: nat, j: nat, k: nat) {
    && (forall o :: o in origins ==> Below(o, i, j, k))
    && (forall o, e {:trigger Leads(g, t, o, e)} :: Below(o, i, j, k) && Leads(g, t, o, e) ==> o in origins)
  }

  /** What one turn of a loop finds: the edge its origin leads to, or none if it leads nowhere. */
  ghost predicate TurnOf(g: Graph, t: TypeId, o: Origin, turn: seq<Edge>) {
    && |turn| <= 1
    && (forall e :: Leads(g, t, o, e) <==> e in turn)
  }

  lemma TurnAppended(g: Graph, t: TypeId, edges: seq<Edge>, origins: seq<Origin>, o: Origin, turn: seq<Edge>)
    returns (longer: seq<Origin>)
    requires ComeFrom(g, t, edges, origins) && TurnOf(g, t, o, turn)
    requires forall p :: p in origins ==> Earlier(p, o)
    ensures ComeFrom(g, t, edges + turn, longer)
    ensures longer == origins + if turn == [] then [] else [o]
  {
    longer := origins + if turn == [] then [] else [o];
    if turn != [] {
      assert turn[0] in turn;
    }
  }

  lemma {:induction false} AttributeOrigins(g: Graph, t: TypeId, n: nat) returns (origins: seq<Origin>)
    requires n <= |g.registry.Attributes(t)|
    ensures ComeFrom(g, t, g.AttributeEdges(t, n), origins) && NoneLeftOut(g, t, origins, n, 0, 0)
  {
    origins := [];
    if n > 0 {
      var before := AttributeOrigins(g, t, n - 1);
      origins := TurnAppended(g, t, g.AttributeEdges(t, n - 1), before, FromAttribute(n - 1),
                              AttributeEdge(g.registry, g.registry.Attributes(t)[n - 1]));
    }
  }

  lemma {:induction false} ChildOrigins(g: Graph, t: TypeId, n: nat) returns (origins: seq<Origin>)
    requires n <= |g.registry.registered|
    ensures ComeFrom(g, t, g.ChildEdges(t, n), origins) && NoneLeftOut(g, t, origins, |g.registry.Attributes(t)|, n, 0)
  {
    if n == 0 {
      origins := AttributeOrigins(g, t, |g.registry.Attributes(t)|);
    } else {
      var before := ChildOrigins(g, t, n - 1);
      origins := TurnAppended(g, t, g.ChildEdges(t, n - 1), before, FromType(n - 1),
                              ChildEdge(g.registry, t, g.registry.registered[n - 1]));
    }
  }

  lemma {:induction false} AggregateOrigins(g: Graph, t: TypeId, n: nat) returns (origins: seq<Origin>)
    requires n <= |g.aggregates|
    ensures ComeFrom(g, t, g.AggregateEdges(t, n), origins)
    ensures NoneLeftOut(g, t, origins, |g.registry.Attributes(t)|, |g.registry.registered|, n)
  {
    if n == 0 {
      origins := ChildOrigins(g, t, |g.registry.registered|);
    } else {
      var before := AggregateOrigins(g, t, n - 1);
      origins := TurnAppended(g, t, g.AggregateEdges(t, n - 1), before, FromAggregation(n - 1),
                              AggregateEdge(g.registry, t, g.aggregates[n - 1]));
    }
  }

  /** The edges of a type in order, each beside its origin, and every origin that leads anywhere among them. */
  lemma EdgesByOrigin(g: Graph, t: TypeId) returns (origins: seq<Origin>)
    ensures ComeFrom(g, t, g.Edges(t), origins)
    ensures forall o, e :: Leads(g, t, o, e) ==> o in origins
  {
    origins := AggregateOrigins(g, t, |g.aggregates|);
  }

  lemma LeadsToOne(g: Graph, t: TypeId, o: Origin, e: Edge, f: Edge)
    requires Leads(g, t, o, e) && Leads(g, t, o, f)
    ensures e == f
  {
  }

  /** An edge leaves a type exactly when something of the four kinds leads along it. */
  lemma EdgeIff(g: Graph, t: TypeId, e: Edge)
    ensures e in g.Edges(t) <==> exists o :: Leads(g, t, o, e)
  {
    var origins := EdgesByOrigin(g, t);
    if o :| Leads(g, t, o, e) {
      var n :| 0 <= n < |origins| && origins[n] == o;
      LeadsToOne(g, t, o, e, g.Edges(t)[n]);
    }
    if e in g.Edges(t) {
      var n :| 0 <= n < |g.Edges(t)| && g.Edges(t)[n] == e;
      assert Leads(g, t, origins[n], e);
    }
  }

  // ---------------------------------------------------------------- itineraries

  type Itinerary = seq<nat>

  /** Every number names an edge of the type reached so far. */
  predicate Follows(g: Graph, t: TypeId, p: Itinerary)
    decreases |p|
  {
    p != [] ==> p[0] < |g.Edges(t)| && Follows(g, g.Edges(t)[p[0]].target, p[1..])
  }

  /** The types an itinerary goes through, the first one included. */
  function Stops(g: Graph, t: TypeId, p: Itinerary): seq<TypeId>
    requires Follows(g, t, p)
    decreases |p|
  {
    if p == [] then [t] else [t] + Stops(g, g.Edges(t)[p[0]].target, p[1..])
  }

  function Labels(g: Graph, t: TypeId, p: Itinerary): seq<string>
    decreases |p|
  {
    if p == [] || p[0] >= |g.Edges(t)| then [] else [g.Edges(t)[p[0]].name] + Labels(g, g.Edges(t)[p[0]].target, p[1..])
  }

  function End(g: Graph, t: TypeId, p: Itinerary): TypeId
    decreases |p|
  {
    if p == [] || p[0] >= |g.Edges(t)| then t else End(g, g.Edges(t)[p[0]].target, p[1..])
  }

  /** Each number of an itinerary names the edge from one stop to the next, whose name is the label. */
  lemma {:induction false} StepAt(g: Graph, t: TypeId, p: Itinerary, k: nat)
    requires Follows(g, t, p) && k < |p|
    ensures var stops := Stops(g, t, p);
            && |stops| == |p| + 1 && |Labels(g, t, p)| == |p|
            && stops[0] == t && stops[|p|] == End(g, t, p)
            && p[k] < |g.Edges(stops[k])|
            && g.Edges(stops[k])[p[k]] == Edge(Labels(g, t, p)[k], stops[k + 1])
    decreases |p|
  {
    var onward := g.Edges(t)[p[0]].target;
    if |p| > 1 {
      StepAt(g, onward, p[1..], if k == 0 then 0 else k - 1);
    }
  }

  /** A simple itinerary stops at no type twice, and at none seen before. */
  ghost predicate Simple(g: Graph, t: TypeId, seen: set<TypeId>, p: Itinerary) {
    && Follows(g, t, p)
    && Distinct(Stops(g, t, p))
    && forall x :: x in Stops(g, t, p) ==> x !in seen
  }

  /** Depth first, a stop before the stops beyond it, edges in order. */
  predicate Before(p: Itinerary, q: Itinerary) {
    q != [] && (p == [] || p[0] < q[0] || (p[0] == q[0] && Before(p[1..], q[1..])))
  }

  predicate InOrder(list: seq<Itinerary>) {
    forall i, j :: 0 <= i < j < |list| ==> Before(list[i], list[j])
  }

  // ---------------------------------------------------------------- the listing

  function Free(seen: set<TypeId>): set<TypeId> {
    set t: TypeId | t !in seen
  }

  function Prefixed(i: nat, list: seq<Itinerary>): seq<Itinerary> {
    seq(|list|, k requires 0 <= k < |list| => [i] + list[k])
  }

  function Listing(g: Graph, t: TypeId, seen: set<TypeId>): seq<Itinerary>
    decreases |Free(seen)|, 0
  {
    if t in seen then [] else
      FreeShrinks(seen, t);
      [[]] + Branches(g, t, seen + {t}, |g.Edges(t)|)
  }

  /** The itineraries through the first n edges. */
  function Branches(g: Graph, t: TypeId, seen: set<TypeId>, n: nat): seq<Itinerary>
    requires n <= |g.Edges(t)|
    decreases |Free(seen)|, n
  {
    if n == 0 then []
    else Branches(g, t, seen, n - 1) + Prefixed(n - 1, Listing(g, g.Edges(t)[n - 1].target, seen))
  }

  lemma FreeShrinks(seen: set<TypeId>, t: TypeId)
    requires t !in seen
    ensures |Free(seen + {t})| < |Free(seen)|
  {
    assert Free(seen) == Free(seen + {t}) + {t};
  }

  // ---------------------------------------------------------------- what the listing contains

  lemma PrefixedMember(i: nat, list: seq<Itinerary>, p: Itinerary)
    ensures p in Prefixed(i, list) <==> p != [] && p[0] == i && p[1..] in list
  {
    if p in Prefixed(i, list) {
      var k :| 0 <= k < |list| && p == Prefixed(i, list)[k];
      assert p[1..] == list[k];
    }
    if p != [] && p[0] == i && p[1..] in list {
      var k :| 0 <= k < |list| && p[1..] == list[k];
      assert p == [i] + p[1..] == Prefixed(i, list)[k];
    }
  }

  lemma {:induction false} BranchesMember(g: Graph, t: TypeId, seen: set<TypeId>, n: nat, p: Itinerary)
    requires n <= |g.Edges(t)|
    ensures p in Branches(g, t, seen, n)
       <==> p != [] && p[0] < n && p[1..] in Listing(g, g.Edges(t)[p[0]].target, seen)
    decreases n
  {
    if n > 0 {
      BranchesMember(g, t, seen, n - 1, p);
      PrefixedMember(n - 1, Listing(g, g.Edges(t)[n - 1].target, seen), p);
    }
  }

  lemma DistinctCons(t: TypeId, s: seq<TypeId>)
    ensures Distinct([t] + s) <==> t !in s && Distinct(s)
  {
    var all := [t] + s;
    assert forall k :: 0 <= k < |s| ==> all[k + 1] == s[k];
    if t in s {
      var k :| 0 <= k < |s| && s[k] == t;
      assert all[0] == all[k + 1];
    }
    if !Distinct(s) {
      var i, j :| 0 <= i < j < |s| && s[i] == s[j];
      assert all[i + 1] == all[j + 1];
    }
  }

  /** The first step of a simple itinerary, and a simple itinerary from there. */
  lemma SimpleStep(g: Graph, t: TypeId, seen: set<TypeId>, p: Itinerary)
    requires p != []
    ensures Simple(g, t, seen, p)
       <==> t !in seen && p[0] < |g.Edges(t)| && Simple(g, g.Edges(t)[p[0]].target, seen + {t}, p[1..])
  {
    if p[0] < |g.Edges(t)| && Follows(g, g.Edges(t)[p[0]].target, p[1..]) {
      DistinctCons(t, Stops(g, g.Edges(t)[p[0]].target, p[1..]));
    }
  }

  /** The listing holds exactly the simple itineraries. */
  lemma {:induction false} ListingIsExact(g: Graph, t: TypeId, seen: set<TypeId>, p: Itinerary)
    ensures p in Listing(g, t, seen) <==> Simple(g, t, seen, p)
    decreases |p|
  {
    if p == [] {
      if t !in seen {
        BranchesMember(g, t, seen + {t}, |g.Edges(t)|, p);
      }
    } else {
      SimpleStep(g, t, seen, p);
      if t !in seen {
        BranchesMember(g, t, seen + {t}, |g.Edges(t)|, p);
        if p[0] < |g.Edges(t)| {
          ListingIsExact(g, g.Edges(t)[p[0]].target, seen + {t}, p[1..]);
        }
      }
    }
  }

  // ---------------------------------------------------------------- the order of the listing

  lemma ConcatInOrder(a: seq<Itinerary>, b: seq<Itinerary>)
    requires InOrder(a) && InOrder(b)
    requires forall p, q :: p in a && q in b ==> Before(p, q)
    ensures InOrder(a + b)
  {
  }

  lemma {:induction false} BranchesInOrder(g: Graph, t: TypeId, seen: set<TypeId>, n: nat)
    requires n <= |g.Edges(t)|
    ensures InOrder(Branches(g, t, seen, n))
    decreases |Free(seen)|, n
  {
    if n > 0 {
      var onward := Listing(g, g.Edges(t)[n - 1].target, seen);
      var front, last := Branches(g, t, seen, n - 1), Prefixed(n - 1, onward);
      BranchesInOrder(g, t, seen, n - 1);
      ListingInOrder(g, g.Edges(t)[n - 1].target, seen);
      forall p, q | p in front && q in last
        ensures Before(p, q)
      {
        BranchesMember(g, t, seen, n - 1, p);
        PrefixedMember(n - 1, onward, q);
      }
      ConcatInOrder(front, last);
    }
  }

  /** Depth-first preorder. */
  lemma {:induction false} ListingInOrder(g: Graph, t: TypeId, seen: set<TypeId>)
    ensures InOrder(Listing(g, t, seen))
    decreases |Free(seen)|, 0
  {
    if t !in seen {
      FreeShrinks(seen, t);
      var n := |g.Edges(t)|;
      var branches := Branches(g, t, seen + {t}, n);
      BranchesInOrder(g, t, seen + {t}, n);
      forall q | q in branches
        ensures Before([], q)
      {
        BranchesMember(g, t, seen + {t}, n, q);
      }
      ConcatInOrder([[]], branches);
    }
  }

  lemma {:induction false} NotBeforeItself(p: Itinerary)
    ensures !Before(p, p)
    decreases |p|
  {
    if p != [] {
      NotBeforeItself(p[1..]);
    }
  }

  lemma {:induction false} BeforeIsOneWay(p: Itinerary, q: Itinerary)
    ensures !(Before(p, q) && Before(q, p))
    decreases |p|
  {
    if p != [] && q != [] {
      BeforeIsOneWay(p[1..], q[1..]);
    }
  }

  /** A list in order is determined by its members. */
  lemma {:induction false} OrderedListsAgree(a: seq<Itinerary>, b: seq<Itinerary>)
    requires InOrder(a) && InOrder(b) && forall p :: p in a <==> p in b
    ensures a == b
  {
    if b != [] {
      HasMember(b);
    }
    if a != [] {
      assert a[0] in b;
      assert b[0] in a;
      var i :| 0 <= i < |b| && b[i] == a[0];
      var j :| 0 <= j < |a| && a[j] == b[0];
      BeforeIsOneWay(a[0], b[0]);
      forall p
        ensures p in a[1..] <==> p in b[1..]
      {
        SameTail(a, b, p);
        SameTail(b, a, p);
      }
      OrderedListsAgree(a[1..], b[1..]);
      assert a == [a[0]] + a[1..] && b == [b[0]] + b[1..];
    }
  }

  lemma HasMember(list: seq<Itinerary>)
    requires list != []
    ensures exists p :: p in list
  {
    assert list[0] in list;
  }

  lemma SameTail(a: seq<Itinerary>, b: seq<Itinerary>, p: Itinerary)
    requires a != [] && b != [] && a[0] == b[0] && InOrder(a)
    requires p in a ==> p in b
    ensures p in a[1..] ==> p in b[1..]
  {
    if p in a[1..] {
      var k :| 0 <= k < |a[1..]| && a[1..][k] == p;
      assert Before(a[0], a[k + 1]);
      NotBeforeItself(p);
      var m :| 0 <= m < |b| && b[m] == p;
      assert b[1..][m - 1] == p;
    }
  }

  /** The only list of all simple itineraries in depth-first preorder is the listing. */
  lemma ListingIsTheOrderedList(g: Graph, t: TypeId, seen: set<TypeId>, list: seq<Itinerary>)
    ensures list == Listing(g, t, seen) <==> InOrder(list) && (forall p :: p in list <==> Simple(g, t, seen, p))
  {
    ListingInOrder(g, t, seen);
    forall p
      ensures p in Listing(g, t, seen) <==> Simple(g, t, seen, p)
    {
      ListingIsExact(g, t, seen, p);
    }
    if InOrder(list) && (forall p :: p in list <==> Simple(g, t, seen, p)) {
      OrderedListsAgree(list, Listing(g, t, seen));
    }
  }

  // ---------------------------------------------------------------- every type that can be reached

  /** From a stop of an itinerary on. */
  lemma {:induction false} FromStop(g: Graph, t: TypeId, p: Itinerary, stop: TypeId) returns (q: Itinerary)
    requires Follows(g, t, p) && stop in Stops(g, t, p)
    ensures |q| <= |p| && Follows(g, stop, q) && End(g, stop, q) == End(g, t, p)
    ensures forall x :: x in Stops(g, stop, q) ==> x in Stops(g, t, p)
    decreases |p|
  {
    if stop == t {
      q := p;
    } else {
      q := FromStop(g, g.Edges(t)[p[0]].target, p[1..], stop);
    }
  }

  /** Leaving out the detours makes an itinerary simple. */
  lemma {:induction false} WithoutDetours(g: Graph, t: TypeId, seen: set<TypeId>, p: Itinerary) returns (q: Itinerary)
    requires Follows(g, t, p) && forall x :: x in Stops(g, t, p) ==> x !in seen
    ensures Simple(g, t, seen, q) && End(g, t, q) == End(g, t, p)
    decreases |p|
  {
    if p == [] {
      q := [];
    } else {
      var onward := g.Edges(t)[p[0]].target;
      if t in Stops(g, onward, p[1..]) {
        q := FromStop(g, onward, p[1..], t);
        q := WithoutDetours(g, t, seen, q);
      } else {
        q := WithoutDetours(g, onward, seen + {t}, p[1..]);
        q := [p[0]] + q;
        SimpleStep(g, t, seen, q);
      }
    }
  }

  predicate Reaches(g: Graph, t: TypeId, p: Itinerary, u: TypeId) {
    Follows(g, t, p) && End(g, t, p) == u
  }

  /** Every type that edges lead to, however long the way, ends some itinerary of the listing. */
  lemma EveryReachableTypeIsListed(g: Graph, t: TypeId, u: TypeId)
    ensures (exists p :: Reaches(g, t, p, u)) <==> exists q :: q in Listing(g, t, {}) && End(g, t, q) == u
  {
    if p :| Reaches(g, t, p, u) {
      var q := WithoutDetours(g, t, {}, p);
      ListingIsExact(g, t, {}, q);
    }
    if q :| q in Listing(g, t, {}) && End(g, t, q) == u {
      ListingIsExact(g, t, {}, q);
      assert Reaches(g, t, q, u);
    }
  }

  // ---------------------------------------------------------------- what is reported

  function PathText(path: seq<string>): string {
    if path == [] then "" else PathText(path[..|path| - 1]) + "/" + path[|path| - 1]
  }

  /** Where the k-th label of a path begins in its text, with its slash. */
  function Offset(path: seq<string>, k: nat): nat
    requires k <= |path|
  {
    if k == 0 then 0 else Offset(path, k - 1) + 1 + |path[k - 1]|
  }

  lemma {:induction false} OffsetOfPrefix(path: seq<string>, n: nat, k: nat)
    requires k <= n <= |path|
    ensures Offset(path[..n], k) == Offset(path, k)
    decreases k
  {
    if k > 0 {
      OffsetOfPrefix(path, n, k - 1);
    }
  }

  /** The text of a path is each label after a slash, and nothing else. */
  lemma {:induction false} PathTextAt(path: seq<string>, k: nat)
    requires k < |path|
    ensures |PathText(path)| == Offset(path, |path|) >= Offset(path, k + 1)
    ensures PathText(path)[Offset(path, k)..Offset(path, k + 1)] == "/" + path[k]
    decreases |path|
  {
    var n := |path| - 1;
    var front := PathText(path[..n]);
    PathTextLength(path);
    PathTextLength(path[..n]);
    OffsetOfPrefix(path, n, n);
    OffsetOfPrefix(path, n, k);
    assert PathText(path) == front + ("/" + path[n]);
    if k < n {
      PathTextAt(path[..n], k);
      OffsetOfPrefix(path, n, k + 1);
    }
  }

  lemma {:induction false} PathTextLength(path: seq<string>)
    ensures |PathText(path)| == Offset(path, |path|)
  {
    if path != [] {
      PathTextLength(path[..|path| - 1]);
      OffsetOfPrefix(path, |path| - 1, |path| - 1);
    }
  }

  /** Where an itinerary ends, and the text of the path to it. */
  function Report(g: Graph, t: TypeId, path: seq<string>, p: Itinerary): (TypeId, string) {
    (End(g, t, p), PathText(path + Labels(g, t, p)))
  }

  function Reports(g: Graph, t: TypeId, path: seq<string>, list: seq<Itinerary>): seq<(TypeId, string)> {
    if list == [] then [] else Reports(g, t, path, list[..|list| - 1]) + [Report(g, t, path, list[|list| - 1])]
  }

  lemma ReportsAppend(g: Graph, t: TypeId, path: seq<string>, list: seq<Itinerary>, p: Itinerary)
    ensures Reports(g, t, path, list + [p]) == Reports(g, t, path, list) + [Report(g, t, path, p)]
  {
    assert (list + [p])[..|list|] == list;
  }

  lemma {:induction false} ReportsConcat(g: Graph, t: TypeId, path: seq<string>, a: seq<Itinerary>, b: seq<Itinerary>)
    ensures Reports(g, t, path, a + b) == Reports(g, t, path, a) + Reports(g, t, path, b)
    decreases |b|
  {
    if b == [] {
      assert a + b == a;
    } else {
      var front, last := b[..|b| - 1], b[|b| - 1];
      ReportsConcat(g, t, path, a, front);
      ReportsAppend(g, t, path, a + front, last);
      ReportsAppend(g, t, path, front, last);
      assert b == front + [last];
      Regroup(a, front, [last]);
      Regroup(Reports(g, t, path, a), Reports(g, t, path, front), [Report(g, t, path, last)]);
    }
  }

  lemma ReportsStart(g: Graph, t: TypeId, path: seq<string>)
    ensures Reports(g, t, path, [[]]) == [(t, PathText(path))]
  {
    assert path + Labels(g, t, []) == path;
  }

  lemma ReportStep(g: Graph, t: TypeId, path: seq<string>, i: nat, q: Itinerary)
    requires i < |g.Edges(t)|
    ensures Report(g, t, path, [i] + q) == Report(g, g.Edges(t)[i].target, path + [g.Edges(t)[i].name], q)
  {
    var e := g.Edges(t)[i];
    assert ([i] + q)[1..] == q;
    assert path + ([e.name] + Labels(g, e.target, q)) == path + [e.name] + Labels(g, e.target, q);
  }

  /** Paths through an edge are the paths of its target, one label further on. */
  lemma {:induction false} ReportsPrefixed(g: Graph, t: TypeId, path: seq<string>, i: nat, list: seq<Itinerary>)
    requires i < |g.Edges(t)|
    ensures Reports(g, t, path, Prefixed(i, list))
         == Reports(g, g.Edges(t)[i].target, path + [g.Edges(t)[i].name], list)
    decreases |list|
  {
    if list != [] {
      var n := |list| - 1;
      ReportsPrefixed(g, t, path, i, list[..n]);
      ReportStep(g, t, path, i, list[n]);
      assert Prefixed(i, list)[..n] == Prefixed(i, list[..n]);
    }
  }

  /** The paths reported for one type. */
  function PathsTo(output: seq<(TypeId, string)>, u: TypeId): seq<string> {
    if output == [] then []
    else
      var last := output[|output| - 1];
      PathsTo(output[..|output| - 1], u) + if last.0 == u then [last.1] else []
  }

  /** The paths to a type are the texts reported for it, all of them and in order. */
  ghost predicate TextsAt(output: seq<(TypeId, string)>, u: TypeId, texts: seq<string>, places: seq<nat>) {
    && |texts| == |places|
    && (forall n :: 0 <= n < |places| ==> places[n] < |output| && output[places[n]] == (u, texts[n]))
    && (forall m, n :: 0 <= m < n < |places| ==> places[m] < places[n])
    && (forall i: nat :: i < |output| && output[i].0 == u ==> i in places)
  }

  lemma TextsMore(output: seq<(TypeId, string)>, u: TypeId, texts: seq<string>, places: seq<nat>, text: string)
    requires TextsAt(output, u, texts, places)
    ensures TextsAt(output + [(u, text)], u, texts + [text], places + [|output|])
  {
    var all := output + [(u, text)];
    assert forall i: nat :: i < |output| ==> all[i] == output[i];
    assert |output| in places + [|output|];
  }

  lemma TextsSame(output: seq<(TypeId, string)>, u: TypeId, texts: seq<string>, places: seq<nat>, other: (TypeId, string))
    requires TextsAt(output, u, texts, places) && other.0 != u
    ensures TextsAt(output + [other], u, texts, places)
  {
    assert forall i: nat :: i < |output| ==> (output + [other])[i] == output[i];
  }

  lemma {:induction false} PathsToInOrder(output: seq<(TypeId, string)>, u: TypeId) returns (places: seq<nat>)
    ensures TextsAt(output, u, PathsTo(output, u), places)
  {
    if output == [] {
      places := [];
    } else {
      var front, last := output[..|output| - 1], output[|output| - 1];
      var before := PathsToInOrder(front, u);
      LastOf(output);
      if last.0 == u {
        TextsMore(front, u, PathsTo(front, u), before, last.1);
        places := before + [|front|];
      } else {
        TextsSame(front, u, PathsTo(front, u), before, last);
        places := before;
      }
    }
  }

  lemma {:induction false} PathsToReports(g: Graph, t: TypeId, list: seq<Itinerary>, u: TypeId, text: string)
    ensures text in PathsTo(Reports(g, t, [], list), u) <==> exists p :: p in list && Report(g, t, [], p) == (u, text)
    decreases |list|
  {
    if list != [] {
      var front, last := list[..|list| - 1], list[|list| - 1];
      PathsToReports(g, t, front, u, text);
      assert list == front + [last];
      ReportsAppend(g, t, [], front, last);
      var all := Reports(g, t, [], front);
      assert (all + [Report(g, t, [], last)])[..|all|] == all;
      assert last in list;
    }
  }

  /** The paths to a type are exactly the texts of the simple itineraries that end there. */
  lemma PathsAreSimpleItineraries(g: Graph, t: TypeId, u: TypeId, text: string)
    ensures text in PathsTo(Reports(g, t, [], Listing(g, t, {})), u)
       <==> exists p :: Simple(g, t, {}, p) && Report(g, t, [], p) == (u, text)
  {
    PathsToReports(g, t, Listing(g, t, {}), u, text);
    forall p
      ensures p in Listing(g, t, {}) <==> Simple(g, t, {}, p)
    {
      ListingIsExact(g, t, {}, p);
    }
  }

  // ---------------------------------------------------------------- the three loops run through the edges

  lemma {:induction false} AttributeEdgesGrow(g: Graph, t: TypeId, n: nat)
    requires n <= |g.registry.Attributes(t)|
    ensures g.AttributeEdges(t, n) <= g.Edges(t)
    decreases |g.registry.Attributes(t)| - n
  {
    if n < |g.registry.Attributes(t)| {
      AttributeEdgesGrow(g, t, n + 1);
    } else {
      ChildEdgesGrow(g, t, 0);
    }
  }

  lemma {:induction false} ChildEdgesGrow(g: Graph, t: TypeId, n: nat)
    requires n <= |g.registry.registered|
    ensures g.ChildEdges(t, n) <= g.Edges(t)
    decreases |g.registry.registered| - n
  {
    if n < |g.registry.registered| {
      ChildEdgesGrow(g, t, n + 1);
    } else {
      AggregateEdgesGrow(g, t, 0);
    }
  }

  lemma {:induction false} AggregateEdgesGrow(g: Graph, t: TypeId, n: nat)
    requires n <= |g.aggregates|
    ensures g.AggregateEdges(t, n) <= g.Edges(t)
    decreases |g.aggregates| - n
  {
    if n < |g.aggregates| {
      AggregateEdgesGrow(g, t, n + 1);
    }
  }

  /** The edge of one turn of a loop, if there is one, is the next edge of the type. */
  predicate Comes(g: Graph, t: TypeId, n: nat, turn: seq<Edge>, next: nat) {
    && next == n + |turn| <= |g.Edges(t)|
    && (turn != [] ==> |turn| == 1 && g.Edges(t)[n] == turn[0])
  }

  lemma NextAttribute(g: Graph, t: TypeId, i: nat)
    requires i < |g.registry.Attributes(t)|
    ensures Comes(g, t, |g.AttributeEdges(t, i)|, AttributeEdge(g.registry, g.registry.Attributes(t)[i]), |g.AttributeEdges(t, i + 1)|)
  {
    AttributeEdgesGrow(g, t, i + 1);
  }

  lemma NextChild(g: Graph, t: TypeId, j: nat)
    requires j < |g.registry.registered|
    ensures Comes(g, t, |g.ChildEdges(t, j)|, ChildEdge(g.registry, t, g.registry.registered[j]), |g.ChildEdges(t, j + 1)|)
  {
    ChildEdgesGrow(g, t, j + 1);
  }

  lemma NextAggregate(g: Graph, t: TypeId, k: nat)
    requires k < |g.aggregates|
    ensures Comes(g, t, |g.AggregateEdges(t, k)|, AggregateEdge(g.registry, t, g.aggregates[k]), |g.AggregateEdges(t, k + 1)|)
  {
    AggregateEdgesGrow(g, t, k + 1);
  }

  /** One call of `DoGather`: its graph, its type, and the state it began with. */
  datatype Call = Call(graph: Graph, t: TypeId, path: seq<string>, seen: set<TypeId>, before: seq<(TypeId, string)>)

  /** The output once the first n edges are done. */
  predicate Reported(c: Call, output: seq<(TypeId, string)>, n: nat) {
    && n <= |c.graph.Edges(c.t)|
    && output == c.before + Reports(c.graph, c.t, c.path, [[]] + Branches(c.graph, c.t, c.seen + {c.t}, n))
  }

  lemma ReportedStart(c: Call)
    ensures Reported(c, c.before + [(c.t, PathText(c.path))], 0)
  {
    ReportsStart(c.graph, c.t, c.path);
    assert [[]] + Branches(c.graph, c.t, c.seen + {c.t}, 0) == [[]];
  }

  lemma ReportedNext(c: Call, output: seq<(TypeId, string)>, n: nat)
    requires Reported(c, output, n) && n < |c.graph.Edges(c.t)|
    ensures var e := c.graph.Edges(c.t)[n];
            Reported(c, output + Reports(c.graph, e.target, c.path + [e.name], Listing(c.graph, e.target, c.seen + {c.t})), n + 1)
  {
    var e := c.graph.Edges(c.t)[n];
    var onward := Listing(c.graph, e.target, c.seen + {c.t});
    var front := Branches(c.graph, c.t, c.seen + {c.t}, n);
    Regroup([[]], front, Prefixed(n, onward));
    ReportsConcat(c.graph, c.t, c.path, [[]] + front, Prefixed(n, onward));
    ReportsPrefixed(c.graph, c.t, c.path, n, onward);
    Regroup(c.before, Reports(c.graph, c.t, c.path, [[]] + front), Reports(c.graph, e.target, c.path + [e.name], onward));
  }

  // ---------------------------------------------------------------- the program

  function Members(s: seq<TypeId>): set<TypeId> {
    set t | t in s
  }

  class StaticInformation {
    const registry: Registry
    var output: seq<(TypeId, string)>
    var currentPath: seq<string>
    var alreadyProcessed: seq<TypeId>
    var aggregates: seq<(TypeId, TypeId)>

    constructor (registry: Registry, aggregates: seq<(TypeId, TypeId)>)
      ensures this.registry == registry && this.aggregates == aggregates
      ensures output == [] && currentPath == [] && alreadyProcessed == []
    {
      this.registry, this.aggregates := registry, aggregates;
      output, currentPath, alreadyProcessed := [], [], [];
    }

    function Net(): Graph
      reads this`aggregates
    {
      Graph(registry, aggregates)
    }

    method GetCurrentPath() returns (text: string)
      ensures text == PathText(currentPath)
    {
      text := "";
      for i := 0 to |currentPath|
        invariant text == PathText(currentPath[..i])
      {
        assert currentPath[..i + 1][..i] == currentPath[..i];
        text := text + "/" + currentPath[i];
      }
      assert currentPath[..|currentPath|] == currentPath;
    }

    method RecordOutput(t: TypeId)
      modifies this`output
      ensures output == old(output) + [(t, PathText(currentPath))]
    {
      var text := GetCurrentPath();
      output := output + [(t, text)];
    }

    method HasAlreadyBeenProcessed(t: TypeId) returns (found: bool)
      ensures found <==> t in alreadyProcessed
    {
      for i := 0 to |alreadyProcessed|
        invariant t !in alreadyProcessed[..i]
      {
        if alreadyProcessed[i] == t {
          return true;
        }
      }
      assert alreadyProcessed[..|alreadyProcessed|] == alreadyProcessed;
      return false;
    }

    /** The fields a call of `DoGather` relies on are as they were when it began. */
    ghost predicate During(c: Call)
      reads this
    {
      c.graph == Net() && currentPath == c.path && Members(alreadyProcessed) == c.seen && c.t !in c.seen
    }

    /** Making the output unique works on a copy, so that the output keeps every report. */
    method Gather(t: TypeId)
      modifies this`output, this`currentPath, this`alreadyProcessed
      ensures output == old(output) + Reports(Net(), t, currentPath, Listing(Net(), t, Members(alreadyProcessed)))
      ensures currentPath == old(currentPath) && alreadyProcessed == old(alreadyProcessed)
    {
      DoGather(t);
    }

    method Get(t: TypeId) returns (paths: seq<string>)
      ensures paths == PathsTo(output, t)
    {
      paths := [];
      for i := 0 to |output|
        invariant paths == PathsTo(output[..i], t)
      {
        assert output[..i + 1][..i] == output[..i];
        if output[i].0 == t {
          paths := paths + [output[i].1];
        }
      }
      assert output[..|output|] == output;
    }

    /** Reports every itinerary in the listing, and leaves both stacks as they were. */
    method DoGather(t: TypeId)
      modifies this`output, this`currentPath, this`alreadyProcessed
      ensures output == old(output) + Reports(Net(), t, currentPath, Listing(Net(), t, Members(alreadyProcessed)))
      ensures currentPath == old(currentPath) && alreadyProcessed == old(alreadyProcessed)
      decreases |Free(Members(alreadyProcessed))|, 4
    {
      var found := HasAlreadyBeenProcessed(t);
      if found {
        return;
      }
      ghost var c := Call(Net(), t, currentPath, Members(alreadyProcessed), output);
      RecordOutput(t);
      ReportedStart(c);
      GatherAttributes(c, t);
      GatherChildren(c, t);
      GatherAggregates(c, t);
    }

    /** Gathers from the far end of an edge, with the stacks pushed for the time of the call. */
    method Enter(t: TypeId, e: Edge)
      requires t !in alreadyProcessed
      modifies this`output, this`currentPath, this`alreadyProcessed
      ensures output == old(output) + Reports(Net(), e.target, currentPath + [e.name],
                                              Listing(Net(), e.target, Members(alreadyProcessed) + {t}))
      ensures currentPath == old(currentPath) && alreadyProcessed == old(alreadyProcessed)
      decreases |Free(Members(alreadyProcessed))|, 0
    {
      ghost var seen := Members(alreadyProcessed);
      FreeShrinks(seen, t);
      currentPath := currentPath + [e.name];
      alreadyProcessed := alreadyProcessed + [t];
      assert Members(alreadyProcessed) == seen + {t};
      DoGather(e.target);
      alreadyProcessed := alreadyProcessed[..|alreadyProcessed| - 1];
      currentPath := currentPath[..|currentPath| - 1];
    }

    /** The next edge: the output of `Enter` is what comes next. */
    method Visit(ghost c: Call, t: TypeId, e: Edge, ghost n: nat)
      requires c.t == t && During(c) && Reported(c, output, n) && n < |c.graph.Edges(t)| && c.graph.Edges(t)[n] == e
      modifies this`output, this`currentPath, this`alreadyProcessed
      ensures Reported(c, output, n + 1)
      ensures During(c) && alreadyProcessed == old(alreadyProcessed)
      decreases |Free(c.seen)|, 1
    {
      ReportedNext(c, output, n);
      Enter(t, e);
    }

    method GatherAttributes(ghost c: Call, t: TypeId)
      requires c.t == t && During(c) && Reported(c, output, 0)
      modifies this`output, this`currentPath, this`alreadyProcessed
      ensures Reported(c, output, |c.graph.AttributeEdges(t, |registry.Attributes(t)|)|)
      ensures During(c) && alreadyProcessed == old(alreadyProcessed)
      decreases |Free(c.seen)|, 3
    {
      ghost var n := 0;
      for i := 0 to |registry.Attributes(t)|
        invariant n == |c.graph.AttributeEdges(t, i)| && Reported(c, output, n)
        invariant During(c) && alreadyProcessed == old(alreadyProcessed)
      {
        var info := registry.Attributes(t)[i];
        NextAttribute(c.graph, t, i);
        match info.checker
        case PointerTo(pointee) =>
          if pointee == registry.objectType {
            continue;
          }
          Visit(c, t, Edge(info.name, pointee), n);
          n := n + 1;
        case ContainerOf(item) =>
          Visit(c, t, Edge(info.name + "/[i]", item), n);
          n := n + 1;
        case Plain =>
      }
    }

    method GatherChildren(ghost c: Call, t: TypeId)
      requires c.t == t && During(c) && Reported(c, output, |c.graph.AttributeEdges(t, |registry.Attributes(t)|)|)
      modifies this`output, this`currentPath, this`alreadyProcessed
      ensures Reported(c, output, |c.graph.ChildEdges(t, |registry.registered|)|)
      ensures During(c) && alreadyProcessed == old(alreadyProcessed)
      decreases |Free(c.seen)|, 3
    {
      ghost var n := |c.graph.ChildEdges(t, 0)|;
      for j := 0 to |registry.registered|
        invariant n == |c.graph.ChildEdges(t, j)| && Reported(c, output, n)
        invariant During(c) && alreadyProcessed == old(alreadyProcessed)
      {
        var child := registry.registered[j];
        NextChild(c.graph, t, j);
        if registry.IsChildOf(child, t) {
          Visit(c, t, Edge("$" + registry.Name(child), child), n);
          n := n + 1;
        }
      }
    }

    method GatherAggregates(ghost c: Call, t: TypeId)
      requires c.t == t && During(c)
      requires Reported(c, output, |c.graph.ChildEdges(t, |registry.registered|)|)
      modifies this`output, this`currentPath, this`alreadyProcessed
      ensures Reported(c, output, |c.graph.Edges(t)|)
      ensures During(c) && alreadyProcessed == old(alreadyProcessed)
      decreases |Free(c.seen)|, 3
    {
      ghost var n := |c.graph.AggregateEdges(t, 0)|;
      for k := 0 to |aggregates|
        invariant n == |c.graph.AggregateEdges(t, k)| && Reported(c, output, n)
        invariant During(c) && alreadyProcessed == old(alreadyProcessed)
      {
        var pair := aggregates[k];
        NextAggregate(c.graph, t, k);
        if pair.0 == t || pair.1 == t {
          var other := pair.1;
          if pair.1 == t {
            other := pair.0;
          }
          Visit(c, t, Edge("$" + registry.Name(other), other), n);
          n := n + 1;
        }
      }
    }
  }
}
