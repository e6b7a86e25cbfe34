/**
 bindings/python/topsort.py, `find_cycles`, with `is_rotated` of bindings/python/rad_util.py:
 the enumeration of all elementary cycles with an explicit stack of paths.
 */
module FindCycles {
  import opened Sequences
  import opened Walks
  import opened Cycles
  import opened TopSort

  type Graph = map<Node, seq<Node>>

  function GraphEdges(g: Graph): Edges {
    set p, c | p in g && c in g[p] :: (p, c)
  }

  function GraphNodes(g: Graph): set<Node> {
    g.Keys + Endpoints(GraphEdges(g))
  }

  lemma EdgeOfGraph(g: Graph, p: Node, c: Node)
    ensures (p, c) in GraphEdges(g) <==> p in g && c in g[p]
    ensures (p, c) in GraphEdges(g) ==> p in GraphNodes(g) && c in GraphNodes(g)
  {
    if (p, c) in GraphEdges(g) {
      assert (p, c).0 in Endpoints(GraphEdges(g)) && (p, c).1 in Endpoints(GraphEdges(g));
    }
  }

  // ---------------------------------------------------------------- is_rotated

  /** The head of an empty second sequence is only looked at when both are empty. */
  method IsRotated(seq1: seq<Node>, seq2: seq<Node>) returns (r: bool)
    requires |seq1| == |seq2| ==> seq2 != []
    ensures r <==> Rotation(seq1, seq2)
  {
    if |seq1| != |seq2| {
      return false;
    }
    var startIndexes: seq<nat> := [];
    var headItem := seq2[0];
    for index1 := 0 to |seq1|
      invariant forall k: nat :: k in startIndexes <==> k < index1 && seq1[k] == headItem
    {
      if seq1[index1] == headItem {
        startIndexes := startIndexes + [index1];
      }
    }
    var doubleSeq1 := seq1 + seq1;
    for i := 0 to |startIndexes|
      invariant forall j :: 0 <= j < i ==> !RotatedBy(seq1, startIndexes[j], seq2)
    {
      var index1 := startIndexes[i];
      assert index1 in startIndexes;
      assert doubleSeq1[index1..index1 + |seq1|] == seq1[index1..] + seq1[..index1];
      if doubleSeq1[index1..index1 + |seq1|] == seq2 {
        assert RotatedBy(seq1, index1, seq2);
        return true;
      }
    }
    forall k: nat
      ensures !RotatedBy(seq1, k, seq2)
    {
      if RotatedBy(seq1, k, seq2) {
        var start := StartIndexOf(seq1, k, seq2);
      }
    }
    return false;
  }

  /** A rotation starts where the head of the second sequence occurs in the first. */
  lemma StartIndexOf(a: seq<Node>, k: nat, b: seq<Node>) returns (start: nat)
    requires RotatedBy(a, k, b) && b != []
    ensures start < |a| && a[start] == b[0] && RotatedBy(a, start, b)
  {
    start := if k == |a| then 0 else k;
    assert a[|a|..] + a[..|a|] == a[0..] + a[..0];
  }

  // ---------------------------------------------------------------- the specification

  ghost predicate Represented(cycles: seq<seq<Node>>, c: seq<Node>) {
    exists k :: 0 <= k < |cycles| && Rotation(cycles[k], c)
  }

  /** Exactly the elementary cycles, each once up to rotation. */
  ghost predicate AllCyclesOnce(edges: Edges, cycles: seq<seq<Node>>) {
    && (forall k :: 0 <= k < |cycles| ==> ElementaryCycle(edges, cycles[k]))
    && (forall c :: ElementaryCycle(edges, c) ==> Represented(cycles, c))
    && NoTwoRotations(cycles)
  }

  ghost predicate NoTwoRotations(cycles: seq<seq<Node>>) {
    forall i, j :: 0 <= i < j < |cycles| ==> !Rotation(cycles[i], cycles[j])
  }

  ghost predicate SoundCycles(edges: Edges, cycles: seq<seq<Node>>) {
    && (forall k :: 0 <= k < |cycles| ==> ElementaryCycle(edges, cycles[k]))
    && NoTwoRotations(cycles)
  }

  /** Every elementary cycle the node reaches has been found. */
  ghost predicate Covered(edges: Edges, cycles: seq<seq<Node>>, v: Node) {
    forall c :: ElementaryCycle(edges, c) && Reaches(edges, v, c[0]) ==> Represented(cycles, c)
  }

  /** Every cycle that closes at the end of the path has been found. */
  ghost predicate Closed(edges: Edges, cycles: seq<seq<Node>>, p: seq<Node>) {
    p != [] ==> forall i :: 0 <= i < |p| && (p[|p| - 1], p[i]) in edges ==> Represented(cycles, p[i..])
  }

  lemma RepresentedGrows(before: seq<seq<Node>>, after: seq<seq<Node>>, c: seq<Node>)
    requires before <= after && Represented(before, c)
    ensures Represented(after, c)
  {
    var k :| 0 <= k < |before| && Rotation(before[k], c);
    assert Rotation(after[k], c);
  }

  /** Once every simple path from the root is closed, the root is covered. */
  lemma ClosedPathsCover(edges: Edges, cycles: seq<seq<Node>>, root: Node)
    requires forall p :: SimplePath(edges, p) && p[0] == root ==> Closed(edges, cycles, p)
    ensures Covered(edges, cycles, root)
  {
    forall c | ElementaryCycle(edges, c) && Reaches(edges, root, c[0])
      ensures Represented(cycles, c)
    {
      var p, m := ApproachCycle(edges, root, c);
      CycleRotates(edges, c, m);
      var turned := c[m..] + c[..m];
      assert RotatedBy(c, m, turned);
      assert turned[0] == c[m];
      assert forall x :: x in turned ==> x in c;
      RoundTheCycle(edges, p, turned);
      assert Closed(edges, cycles, p + turned[1..]);
      var k :| 0 <= k < |cycles| && Rotation(cycles[k], turned);
      RotationSymmetric(c, turned);
      RotationTransitive(cycles[k], turned, c);
    }
  }

  /** What a root covers, every node it reaches covers as well. */
  lemma CoverPassesOn(edges: Edges, cycles: seq<seq<Node>>, root: Node, v: Node)
    requires Covered(edges, cycles, root) && Reaches(edges, root, v)
    ensures Covered(edges, cycles, v)
  {
    forall c | ElementaryCycle(edges, c) && Reaches(edges, v, c[0])
      ensures Represented(cycles, c)
    {
      ReachesTransitive(edges, root, v, c[0]);
    }
  }

  // ---------------------------------------------------------------- the work left on the stack

  ghost predicate PathInGraph(g: Graph, p: seq<Node>) {
    SimplePath(GraphEdges(g), p) && forall x :: x in p ==> x in GraphNodes(g)
  }

  lemma PathExtends(g: Graph, p: seq<Node>, c: Node)
    requires PathInGraph(g, p) && p[|p| - 1] in g && c in g[p[|p| - 1]] && c !in p
    ensures PathInGraph(g, p + [c])
    ensures |p| < |GraphNodes(g)|
  {
    EdgeOfGraph(g, p[|p| - 1], c);
    DistinctConcat(p, [c]);
    DistinctBound(p + [c], GraphNodes(g));
  }

  /** How many paths are popped on account of this one: itself and all its simple extensions. */
  ghost function Work(g: Graph, p: seq<Node>): nat
    requires PathInGraph(g, p)
    decreases |GraphNodes(g)| - |p|, 1, 0
  {
    DistinctBound(p, GraphNodes(g));
    1 + if p[|p| - 1] in g then WorkOn(g, p, g[p[|p| - 1]]) else 0
  }

  ghost function WorkOn(g: Graph, p: seq<Node>, children: seq<Node>): nat
    requires PathInGraph(g, p) && p[|p| - 1] in g
    requires forall c :: c in children ==> c in g[p[|p| - 1]]
    decreases |GraphNodes(g)| - |p|, 0, |children|
  {
    if children == [] then 0
    else
      var front, c := children[..|children| - 1], children[|children| - 1];
      assert c in children && forall x :: x in front ==> x in children;
      WorkOn(g, p, front) + if c in p then 0 else PathExtends(g, p, c); Work(g, p + [c])
  }

  lemma WorkOnStep(g: Graph, p: seq<Node>, children: seq<Node>, c: Node)
    requires PathInGraph(g, p) && p[|p| - 1] in g
    requires c in g[p[|p| - 1]] && forall x :: x in children ==> x in g[p[|p| - 1]]
    ensures c in p ==> WorkOn(g, p, children + [c]) == WorkOn(g, p, children)
    ensures c !in p ==> PathInGraph(g, p + [c])
    ensures c !in p ==> WorkOn(g, p, children + [c]) == WorkOn(g, p, children) + Work(g, p + [c])
  {
    assert (children + [c])[..|children|] == children;
    if c !in p {
      PathExtends(g, p, c);
    }
  }

  ghost predicate StackInGraph(g: Graph, root: Node, paths: seq<seq<Node>>) {
    forall k :: 0 <= k < |paths| ==> PathInGraph(g, paths[k]) && paths[k][0] == root
  }

  ghost function StackWork(g: Graph, root: Node, paths: seq<seq<Node>>): nat
    requires StackInGraph(g, root, paths)
  {
    if paths == [] then 0 else StackWork(g, root, paths[..|paths| - 1]) + Work(g, paths[|paths| - 1])
  }

  // ---------------------------------------------------------------- the search from one root

  ghost predicate OnStack(paths: seq<seq<Node>>, p: seq<Node>) {
    exists k :: 0 <= k < |paths| && paths[k] <= p
  }

  /** Each simple path from the root is closed or extends a path that is still on the stack. */
  ghost predicate NothingMissed(edges: Edges, root: Node, paths: seq<seq<Node>>, cycles: seq<seq<Node>>) {
    forall p :: SimplePath(edges, p) && p[0] == root ==> Closed(edges, cycles, p) || OnStack(paths, p)
  }

  /** The popped path has passed on its work for the children listed so far. */
  ghost predicate PartlyExpanded(edges: Edges, root: Node, path: seq<Node>, children: seq<Node>,
                                 paths: seq<seq<Node>>, cycles: seq<seq<Node>>)
    requires path != []
  {
    && (forall i :: 0 <= i < |path| && path[i] in children ==> Represented(cycles, path[i..]))
    && (forall p :: SimplePath(edges, p) && p[0] == root && !(path <= p) ==>
                      Closed(edges, cycles, p) || OnStack(paths, p))
    && (forall p :: SimplePath(edges, p) && p[0] == root && path < p && p[|path|] in children ==>
                      Closed(edges, cycles, p) || OnStack(paths, p))
  }

  lemma OnStackPush(paths: seq<seq<Node>>, q: seq<Node>, p: seq<Node>)
    ensures OnStack(paths + [q], p) <==> OnStack(paths, p) || q <= p
  {
    var pushed := paths + [q];
    if OnStack(paths, p) {
      var k :| 0 <= k < |paths| && paths[k] <= p;
      assert pushed[k] <= p;
    }
    if q <= p {
      assert pushed[|paths|] <= p;
    }
  }

  lemma FullyExpanded(edges: Edges, root: Node, path: seq<Node>, children: seq<Node>,
                      paths: seq<seq<Node>>, cycles: seq<seq<Node>>)
    requires path != [] && PartlyExpanded(edges, root, path, children, paths, cycles)
    requires forall c :: (path[|path| - 1], c) in edges ==> c in children
    ensures NothingMissed(edges, root, paths, cycles)
  {
    forall p | SimplePath(edges, p) && p[0] == root
      ensures Closed(edges, cycles, p) || OnStack(paths, p)
    {
      if path == p {
        assert Closed(edges, cycles, p);
      } else if path <= p {
        assert path < p && (p[|path| - 1], p[|path|]) in edges;
      }
    }
  }

  /** The next child is on the path: its cycle has been found. */
  lemma ChildCloses(edges: Edges, root: Node, path: seq<Node>, children: seq<Node>, c: Node, i: nat,
                    paths: seq<seq<Node>>, before: seq<seq<Node>>, after: seq<seq<Node>>)
    requires path != [] && Distinct(path) && PartlyExpanded(edges, root, path, children, paths, before)
    requires i < |path| && path[i] == c && before <= after && Represented(after, path[i..])
    ensures PartlyExpanded(edges, root, path, children + [c], paths, after)
  {
    forall k | 0 <= k < |path| && path[k] in children + [c]
      ensures Represented(after, path[k..])
    {
      if path[k] in children {
        RepresentedGrows(before, after, path[k..]);
      }
    }
    forall p | SimplePath(edges, p) && p[0] == root && Closed(edges, before, p)
      ensures Closed(edges, after, p)
    {
    }
    forall p | SimplePath(edges, p) && path < p
      ensures p[|path|] != c
    {
      assert p[i] == c;
    }
  }

  /** The next child extends the path: the longer path is pushed. */
  lemma ChildPushed(edges: Edges, root: Node, path: seq<Node>, children: seq<Node>, c: Node,
                    paths: seq<seq<Node>>, cycles: seq<seq<Node>>)
    requires path != [] && PartlyExpanded(edges, root, path, children, paths, cycles) && c !in path
    ensures PartlyExpanded(edges, root, path, children + [c], paths + [path + [c]], cycles)
  {
    forall p
      ensures OnStack(paths + [path + [c]], p) <==> OnStack(paths, p) || path + [c] <= p
    {
      OnStackPush(paths, path + [c], p);
    }
    forall p | path < p && p[|path|] == c
      ensures path + [c] <= p
    {
      assert p[..|path| + 1] == path + [c];
    }
  }

  // ---------------------------------------------------------------- find_cycles

  /** Appends the cycle unless a rotation of it is listed already. */
  method RecordCycle(ghost edges: Edges, found: seq<seq<Node>>, cycle: seq<Node>) returns (cycles: seq<seq<Node>>)
    requires SoundCycles(edges, found) && ElementaryCycle(edges, cycle)
    ensures found <= cycles && SoundCycles(edges, cycles) && Represented(cycles, cycle)
  {
    var isDup := false;
    var k := 0;
    while k < |found| && !isDup
      invariant k <= |found|
      invariant isDup ==> Represented(found, cycle)
      invariant !isDup ==> forall j :: 0 <= j < k ==> !Rotation(found[j], cycle)
      decreases |found| - k, !isDup
    {
      isDup := IsRotated(found[k], cycle);
      k := k + 1;
    }
    if isDup {
      cycles := found;
    } else {
      cycles := found + [cycle];
      RotationSelf(cycle);
      assert Rotation(cycles[|found|], cycle);
    }
  }

  function IndexOf(path: seq<Node>, x: Node): (i: nat)
    requires x in path
    ensures i < |path| && path[i] == x && x !in path[..i]
  {
    if path[0] == x then 0
    else
      assert path == [path[0]] + path[1..];
      var j := IndexOf(path[1..], x);
      assert path[..j + 1] == [path[0]] + path[1..][..j];
      j + 1
  }

  ghost predicate ReachedFrom(edges: Edges, root: Node, seen: set<Node>, visited: set<Node>) {
    forall v :: v in visited ==> v in seen || Reaches(edges, root, v)
  }

  lemma PathReaches(edges: Edges, p: seq<Node>, c: Node)
    requires IsWalk(edges, p) && (p[|p| - 1], c) in edges
    ensures Reaches(edges, p[0], c)
  {
    assert WalkBetween(edges, p, p[0], p[|p| - 1]);
    ReachesStep(edges, p[0], p[|p| - 1], c);
  }

  lemma StackWorkPush(g: Graph, root: Node, paths: seq<seq<Node>>, q: seq<Node>)
    requires StackInGraph(g, root, paths) && PathInGraph(g, q) && q[0] == root
    ensures StackInGraph(g, root, paths + [q])
    ensures StackWork(g, root, paths + [q]) == StackWork(g, root, paths) + Work(g, q)
  {
    assert (paths + [q])[..|paths|] == paths;
  }

  /** The loop over the children of the last node of a popped path. */
  method Expand(g: Graph, ghost root: Node, path: seq<Node>, below: seq<seq<Node>>,
                found: seq<seq<Node>>, ghost seen: set<Node>, marked: set<Node>)
    returns (paths: seq<seq<Node>>, cycles: seq<seq<Node>>, visited: set<Node>)
    requires PathInGraph(g, path) && path[0] == root && path[|path| - 1] in g
    requires StackInGraph(g, root, below) && SoundCycles(GraphEdges(g), found)
    requires PartlyExpanded(GraphEdges(g), root, path, [], below, found)
    requires ReachedFrom(GraphEdges(g), root, seen, marked)
    ensures StackInGraph(g, root, paths) && SoundCycles(GraphEdges(g), cycles) && found <= cycles
    ensures NothingMissed(GraphEdges(g), root, paths, cycles)
    ensures StackWork(g, root, paths) + 1 == StackWork(g, root, below) + Work(g, path)
    ensures ReachedFrom(GraphEdges(g), root, seen, visited)
  {
    ghost var edges := GraphEdges(g);
    paths, cycles, visited := below, found, marked;
    var parent := path[|path| - 1];
    var children := g[parent];
    ghost var past: seq<Node> := [];
    for j := 0 to |children|
      invariant past == children[..j]
      invariant StackInGraph(g, root, paths) && SoundCycles(edges, cycles) && found <= cycles
      invariant PartlyExpanded(edges, root, path, past, paths, cycles)
      invariant StackWork(g, root, paths) == StackWork(g, root, below) + WorkOn(g, path, past)
      invariant ReachedFrom(edges, root, seen, visited)
    {
      var child := children[j];
      PrefixStep(children, j);
      WorkOnStep(g, path, past, child);
      if child in path {
        cycles := CloseCycle(g, root, path, past, child, paths, cycles);
      } else {
        PushChild(g, root, path, past, child, paths, cycles);
        paths := paths + [path + [child]];
        visited := visited + {child};
      }
      past := past + [child];
    }
    WholePrefix(children);
    AllChildrenExpanded(g, root, path, paths, cycles);
  }

  lemma AllChildrenExpanded(g: Graph, root: Node, path: seq<Node>, paths: seq<seq<Node>>, cycles: seq<seq<Node>>)
    requires path != [] && path[|path| - 1] in g
    requires PartlyExpanded(GraphEdges(g), root, path, g[path[|path| - 1]], paths, cycles)
    ensures NothingMissed(GraphEdges(g), root, paths, cycles)
  {
    var parent := path[|path| - 1];
    forall c | (parent, c) in GraphEdges(g)
      ensures c in g[parent]
    {
      EdgeOfGraph(g, parent, c);
    }
    FullyExpanded(GraphEdges(g), root, path, g[parent], paths, cycles);
  }

  lemma PushChild(g: Graph, root: Node, path: seq<Node>, past: seq<Node>, c: Node,
                  paths: seq<seq<Node>>, cycles: seq<seq<Node>>)
    requires PathInGraph(g, path) && path[0] == root && path[|path| - 1] in g
    requires c in g[path[|path| - 1]] && c !in path && StackInGraph(g, root, paths)
    requires PartlyExpanded(GraphEdges(g), root, path, past, paths, cycles)
    ensures PathInGraph(g, path + [c]) && StackInGraph(g, root, paths + [path + [c]])
    ensures PartlyExpanded(GraphEdges(g), root, path, past + [c], paths + [path + [c]], cycles)
    ensures StackWork(g, root, paths + [path + [c]]) == StackWork(g, root, paths) + Work(g, path + [c])
    ensures Reaches(GraphEdges(g), root, c)
  {
    EdgeOfGraph(g, path[|path| - 1], c);
    PathExtends(g, path, c);
    StackWorkPush(g, root, paths, path + [c]);
    ChildPushed(GraphEdges(g), root, path, past, c, paths, cycles);
    PathReaches(GraphEdges(g), path, c);
  }

  /** A child that is on the path already: the cycle it closes is recorded. */
  method CloseCycle(ghost g: Graph, ghost root: Node, path: seq<Node>, ghost past: seq<Node>, child: Node,
                    ghost paths: seq<seq<Node>>, found: seq<seq<Node>>) returns (cycles: seq<seq<Node>>)
    requires PathInGraph(g, path) && path[|path| - 1] in g && child in g[path[|path| - 1]] && child in path
    requires SoundCycles(GraphEdges(g), found)
    requires PartlyExpanded(GraphEdges(g), root, path, past, paths, found)
    ensures SoundCycles(GraphEdges(g), cycles) && found <= cycles
    ensures PartlyExpanded(GraphEdges(g), root, path, past + [child], paths, cycles)
  {
    ghost var edges := GraphEdges(g);
    EdgeOfGraph(g, path[|path| - 1], child);
    var i := IndexOf(path, child);
    cycles := RecordCycle(edges, found, path[i..]);
    ChildCloses(edges, root, path, past, child, i, paths, found, cycles);
  }

  lemma RootOnStack(edges: Edges, root: Node, cycles: seq<seq<Node>>)
    ensures NothingMissed(edges, root, [[root]], cycles)
  {
    forall p | SimplePath(edges, p) && p[0] == root
      ensures OnStack([[root]], p)
    {
      assert [[root]][0] <= p;
    }
  }

  lemma PopStack(g: Graph, root: Node, paths: seq<seq<Node>>, cycles: seq<seq<Node>>)
    requires paths != [] && StackInGraph(g, root, paths) && NothingMissed(GraphEdges(g), root, paths, cycles)
    ensures var path, below := paths[|paths| - 1], paths[..|paths| - 1];
            && PathInGraph(g, path) && path[0] == root && StackInGraph(g, root, below)
            && StackWork(g, root, paths) == StackWork(g, root, below) + Work(g, path)
            && PartlyExpanded(GraphEdges(g), root, path, [], below, cycles)
  {
    var path, below := paths[|paths| - 1], paths[..|paths| - 1];
    assert paths == below + [path];
  }

  /** Everything that starts at one root that no earlier path has visited. */
  method SearchFrom(g: Graph, root: Node, found: seq<seq<Node>>, seen: set<Node>)
    returns (cycles: seq<seq<Node>>, visited: set<Node>, ghost pops: nat)
    requires root in g && SoundCycles(GraphEdges(g), found)
    ensures found <= cycles && SoundCycles(GraphEdges(g), cycles)
    ensures Covered(GraphEdges(g), cycles, root)
    ensures ReachedFrom(GraphEdges(g), root, seen, visited)
    ensures PathInGraph(g, [root]) && pops == Work(g, [root])
  {
    ghost var edges := GraphEdges(g);
    cycles, visited, pops := found, seen, 0;
    var paths := [[root]];
    RootOnStack(edges, root, cycles);
    while paths != []
      invariant StackInGraph(g, root, paths) && SoundCycles(edges, cycles) && found <= cycles
      invariant NothingMissed(edges, root, paths, cycles)
      invariant ReachedFrom(edges, root, seen, visited)
      invariant pops + StackWork(g, root, paths) == Work(g, [root])
      decreases StackWork(g, root, paths)
    {
      var path, below := paths[|paths| - 1], paths[..|paths| - 1];
      PopStack(g, root, paths, cycles);
      pops := pops + 1;
      var parent := path[|path| - 1];
      if parent in g {
        paths, cycles, visited := Expand(g, root, path, below, cycles, seen, visited);
      } else {
        paths := below;
      }
    }
    ClosedPathsCover(edges, cycles, root);
  }

  /** The keys of the dictionary, in whatever order it yields them. */
  method ListKeys(g: Graph) returns (keys: seq<Node>)
    ensures Distinct(keys) && Elements(keys) == g.Keys
  {
    keys := [];
    var todo := g.Keys;
    while todo != {}
      invariant todo <= g.Keys && Distinct(keys) && Elements(keys) == g.Keys - todo
      decreases |todo|
    {
      var x :| x in todo;
      assert x !in Elements(keys);
      assert Elements(keys + [x]) == Elements(keys) + {x};
      keys, todo := keys + [x], todo - {x};
    }
  }

  method FindCycles(parentChildren: Graph) returns (cycles: seq<seq<Node>>)
    ensures AllCyclesOnce(GraphEdges(parentChildren), cycles)
  {
    ghost var edges := GraphEdges(parentChildren);
    cycles := [];
    var visitedNodes: set<Node> := {};
    var keys := ListKeys(parentChildren);
    for i := 0 to |keys|
      invariant SoundCycles(edges, cycles)
      invariant forall v :: v in visitedNodes ==> Covered(edges, cycles, v)
      invariant forall k :: 0 <= k < i ==> Covered(edges, cycles, keys[k])
    {
      var parent := keys[i];
      assert parent in Elements(keys);
      if parent !in visitedNodes {
        ghost var before, seen := cycles, visitedNodes;
        ghost var pops;
        cycles, visitedNodes, pops := SearchFrom(parentChildren, parent, cycles, visitedNodes);
        StillCovered(edges, before, cycles, parent, seen, visitedNodes, keys[..i]);
      }
    }
    EverythingFound(parentChildren, keys, cycles);
  }

  lemma StillCovered(edges: Edges, before: seq<seq<Node>>, after: seq<seq<Node>>, root: Node,
                     seen: set<Node>, visited: set<Node>, roots: seq<Node>)
    requires before <= after && Covered(edges, after, root) && ReachedFrom(edges, root, seen, visited)
    requires forall v :: v in seen || v in roots ==> Covered(edges, before, v)
    ensures forall v :: v in visited || v in roots ==> Covered(edges, after, v)
  {
    forall v | v in visited || v in roots
      ensures Covered(edges, after, v)
    {
      if v in seen || v in roots {
      } else {
        CoverPassesOn(edges, after, root, v);
      }
    }
  }

  /** The nodes of a cycle are all keys, so covering the keys finds every cycle. */
  lemma EverythingFound(g: Graph, keys: seq<Node>, cycles: seq<seq<Node>>)
    requires Elements(keys) == g.Keys && SoundCycles(GraphEdges(g), cycles)
    requires forall k :: 0 <= k < |keys| ==> Covered(GraphEdges(g), cycles, keys[k])
    ensures AllCyclesOnce(GraphEdges(g), cycles)
  {
    var edges := GraphEdges(g);
    forall c | ElementaryCycle(edges, c)
      ensures Represented(cycles, c)
    {
      var next := if |c| == 1 then c[0] else c[1];
      assert (c[0], next) in edges;
      EdgeOfGraph(g, c[0], next);
      assert c[0] in Elements(keys);
      ReachesItself(edges, c[0]);
    }
  }

  // ---------------------------------------------------------------- the two views of a cycle

  /** The child lists the topological sort builds describe the same edges as its pairs. */
  lemma TablesKeepEdges(pairs: seq<(Node, Node)>, children: Graph)
    requires ListsChildren(pairs, {}, children)
    ensures GraphEdges(children) == EdgesOf(pairs)
  {
    forall e: (Node, Node)
      ensures e in GraphEdges(children) <==> e in EdgesOf(pairs)
    {
      ChildrenAreEdges(pairs, e.0, e.1);
      EdgeOfGraph(children, e.0, e.1);
    }
  }

  /** `topsort` raises CycleError exactly when `find_cycles` has something to yield. */
  lemma CycleErrorIffCycleFound(pairs: seq<(Node, Node)>, r: Outcome, g: Graph, cycles: seq<seq<Node>>)
    requires TopSortPost(pairs, r) && GraphEdges(g) == EdgesOf(pairs)
    requires AllCyclesOnce(GraphEdges(g), cycles)
    ensures r.CycleError? <==> cycles != []
  {
    CyclicIffElementary(EdgesOf(pairs));
    if c :| ElementaryCycle(EdgesOf(pairs), c) {
      assert Represented(cycles, c);
    }
    if cycles != [] {
      assert ElementaryCycle(EdgesOf(pairs), cycles[0]);
    }
  }
}
