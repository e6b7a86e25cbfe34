/**
 Directed graphs as finite sets of (parent, child) edges: walks, cycles, reachability and
 the lengths of the chains of predecessors that end in a node.
 */
module Walks {
  import opened Sequences

  /** The graph algorithms only compare nodes for equality. */
  type Node(==, !new)

  type Edges = set<(Node, Node)>

  // ---------------------------------------------------------------- walks

  /** The nodes that occur in some edge. */
  function Endpoints(edges: Edges): (r: set<Node>) {
    (set e | e in edges :: e.0) + (set e | e in edges :: e.1)
  }

  ghost predicate IsWalk(edges: Edges, w: seq<Node>) {
    && |w| >= 1
    && forall i :: 0 <= i < |w| - 1 ==> (w[i], w[i + 1]) in edges
  }

  ghost predicate WalkTo(edges: Edges, w: seq<Node>, to: Node) {
    IsWalk(edges, w) && w[|w| - 1] == to
  }

  ghost predicate WalkBetween(edges: Edges, w: seq<Node>, from: Node, to: Node) {
    WalkTo(edges, w, to) && w[0] == from
  }

  ghost predicate ClosedWalk(edges: Edges, w: seq<Node>, at: Node) {
    WalkBetween(edges, w, at, at) && |w| >= 2
  }

  ghost predicate Reaches(edges: Edges, from: Node, to: Node) {
    exists w :: WalkBetween(edges, w, from, to)
  }

  /** The node lies on a directed cycle; a self-loop is one. */
  ghost predicate OnCycle(edges: Edges, x: Node) {
    exists w :: ClosedWalk(edges, w, x)
  }

  ghost predicate Cyclic(edges: Edges) {
    exists x :: OnCycle(edges, x)
  }

  /** The node lies on a cycle or can be reached from one. */
  ghost predicate DownstreamOfCycle(edges: Edges, x: Node) {
    exists y :: OnCycle(edges, y) && Reaches(edges, y, x)
  }

  /** Some chain of k edges, each node a parent of the next, ends in x. */
  ghost predicate HasChain(edges: Edges, x: Node, k: nat) {
    exists w :: WalkTo(edges, w, x) && |w| == k + 1
  }

  /** The longest chain that ends in x has exactly k edges. */
  ghost predicate LongestChainIs(edges: Edges, x: Node, k: nat) {
    HasChain(edges, x, k) && forall m: nat :: HasChain(edges, x, m) ==> m <= k
  }

  ghost predicate HasParentIn(edges: Edges, s: set<Node>, x: Node) {
    exists p :: p in s && (p, x) in edges
  }

  /** Every member of the set has a parent in the set. */
  ghost predicate Starved(edges: Edges, s: set<Node>) {
    forall x {:trigger HasParentIn(edges, s, x)} :: x in s ==> HasParentIn(edges, s, x)
  }

  lemma ReachesItself(edges: Edges, x: Node)
    ensures Reaches(edges, x, x)
  {
    assert WalkBetween(edges, [x], x, x);
  }

  lemma ReachesStep(edges: Edges, x: Node, y: Node, z: Node)
    requires Reaches(edges, x, y) && (y, z) in edges
    ensures Reaches(edges, x, z)
  {
    var w :| WalkBetween(edges, w, x, y);
    assert WalkBetween(edges, w + [z], x, z);
  }

  lemma WalkConcat(edges: Edges, u: seq<Node>, v: seq<Node>)
    requires IsWalk(edges, u) && IsWalk(edges, v) && u[|u| - 1] == v[0]
    ensures IsWalk(edges, u + v[1..])
  {
    var w := u + v[1..];
    forall i | 0 <= i < |w| - 1
      ensures (w[i], w[i + 1]) in edges
    {
      if i >= |u| - 1 {
        var j := i - (|u| - 1);
        assert w[i] == v[j] && w[i + 1] == v[j + 1];
      }
    }
  }

  lemma ReachesTransitive(edges: Edges, x: Node, y: Node, z: Node)
    requires Reaches(edges, x, y) && Reaches(edges, y, z)
    ensures Reaches(edges, x, z)
  {
    var u :| WalkBetween(edges, u, x, y);
    var v :| WalkBetween(edges, v, y, z);
    WalkConcat(edges, u, v);
    var w := u + v[1..];
    assert w[|w| - 1] == z by {
      if |v| > 1 {
        assert w[|w| - 1] == v[|v| - 1];
      }
    }
    assert WalkBetween(edges, w, x, z);
  }

  lemma CutWalk(edges: Edges, w: seq<Node>, lo: nat, hi: nat)
    requires IsWalk(edges, w) && lo < hi <= |w|
    ensures IsWalk(edges, w[lo..hi])
  {
    var c := w[lo..hi];
    forall i | 0 <= i < |c| - 1
      ensures (c[i], c[i + 1]) in edges
    {
      assert c[i] == w[lo + i] && c[i + 1] == w[lo + i + 1];
    }
  }

  // ---------------------------------------------------------------- chain lengths

  /** A chain of k + 1 edges into x is a chain of k edges into one of its parents. */
  lemma ChainStep(edges: Edges, x: Node, k: nat)
    ensures HasChain(edges, x, k + 1) <==> exists p :: (p, x) in edges && HasChain(edges, p, k)
  {
    if HasChain(edges, x, k + 1) {
      var w :| WalkTo(edges, w, x) && |w| == k + 2;
      CutWalk(edges, w, 0, k + 1);
      assert WalkTo(edges, w[0..k + 1], w[k]);
      assert (w[k], x) in edges && HasChain(edges, w[k], k);
    }
    forall p | (p, x) in edges && HasChain(edges, p, k)
      ensures HasChain(edges, x, k + 1)
    {
      var w :| WalkTo(edges, w, p) && |w| == k + 1;
      assert WalkTo(edges, w + [x], x);
    }
  }

  /** A node alone is a chain without edges. */
  lemma ChainOfNone(edges: Edges, x: Node)
    ensures HasChain(edges, x, 0)
  {
    assert WalkTo(edges, [x], x);
  }

  lemma ChainShorter(edges: Edges, x: Node, k: nat, m: nat)
    requires HasChain(edges, x, k) && m <= k
    ensures HasChain(edges, x, m)
  {
    var w :| WalkTo(edges, w, x) && |w| == k + 1;
    CutWalk(edges, w, k - m, k + 1);
    assert WalkTo(edges, w[k - m..k + 1], x);
  }

  /** The exact depth is decided by two neighbouring chain lengths. */
  lemma LongestChainByNeighbours(edges: Edges, x: Node, k: nat)
    ensures LongestChainIs(edges, x, k) <==> HasChain(edges, x, k) && !HasChain(edges, x, k + 1)
  {
    forall m: nat | HasChain(edges, x, m) && !HasChain(edges, x, k + 1)
      ensures m <= k
    {
      if m > k {
        ChainShorter(edges, x, m, k + 1);
      }
    }
  }

  /** Inside a set whose members all have a parent in the set, chains never run out. */
  lemma {:induction false} StarvedHasChains(edges: Edges, s: set<Node>, x: Node, k: nat)
    requires Starved(edges, s) && x in s
    ensures HasChain(edges, x, k)
    decreases k
  {
    if k == 0 {
      ChainOfNone(edges, x);
    } else {
      assert HasParentIn(edges, s, x);
      var p :| p in s && (p, x) in edges;
      StarvedHasChains(edges, s, p, k - 1);
      ChainStep(edges, x, k - 1);
    }
  }

  /** A node with a chain as long as there are nodes is downstream of a cycle ... */
  lemma LongChainHasCycle(edges: Edges, x: Node, k: nat)
    requires HasChain(edges, x, k) && k >= |Endpoints(edges)| && k >= 1
    ensures DownstreamOfCycle(edges, x)
  {
    var w :| WalkTo(edges, w, x) && |w| == k + 1;
    forall y | y in w
      ensures y in Endpoints(edges)
    {
      var i :| 0 <= i < |w| && w[i] == y;
      if i < k {
        assert (w[i], w[i + 1]) in edges;
        assert (w[i], w[i + 1]).0 in Endpoints(edges);
      } else {
        assert (w[i - 1], w[i]) in edges;
        assert (w[i - 1], w[i]).1 in Endpoints(edges);
      }
    }
    if Distinct(w) {
      DistinctBound(w, Endpoints(edges));
      assert false;
    }
    var i, j :| 0 <= i < j < |w| && w[i] == w[j];
    CutWalk(edges, w, i, j + 1);
    assert ClosedWalk(edges, w[i..j + 1], w[i]);
    CutWalk(edges, w, i, |w|);
    assert WalkBetween(edges, w[i..|w|], w[i], x);
    assert OnCycle(edges, w[i]) && Reaches(edges, w[i], x);
  }

  /** ... and a node downstream of a cycle belongs to a set of nodes that feed each other. */
  lemma DownstreamIsStarved(edges: Edges, x: Node) returns (s: set<Node>)
    requires DownstreamOfCycle(edges, x)
    ensures x in s && Starved(edges, s)
  {
    var y :| OnCycle(edges, y) && Reaches(edges, y, x);
    var c :| ClosedWalk(edges, c, y);
    var w :| WalkBetween(edges, w, y, x);
    s := Elements(c) + Elements(w);
    forall z | z in s
      ensures HasParentIn(edges, s, z)
    {
      assert c[1..][|c| - 2] == y;
      if z in c[1..] {
        var i :| 1 <= i < |c| && c[i] == z;
        assert c[i - 1] in s && (c[i - 1], z) in edges;
      } else {
        assert z in w[1..];
        var i :| 1 <= i < |w| && w[i] == z;
        assert w[i - 1] in s && (w[i - 1], z) in edges;
      }
    }
    assert x == w[|w| - 1];
  }

  /** Downstream of a cycle is the same as having chains of every length. */
  lemma DownstreamIffAllChains(edges: Edges, x: Node)
    ensures DownstreamOfCycle(edges, x) <==> forall k: nat :: HasChain(edges, x, k)
  {
    if DownstreamOfCycle(edges, x) {
      var s := DownstreamIsStarved(edges, x);
      forall k: nat
        ensures HasChain(edges, x, k)
      {
        StarvedHasChains(edges, s, x, k);
      }
    }
    if forall k: nat :: HasChain(edges, x, k) {
      var k := |Endpoints(edges)| + 1;
      assert HasChain(edges, x, k);
      LongChainHasCycle(edges, x, k);
    }
  }

  /** Every member of a starved set is downstream of a cycle. */
  lemma StarvedIsDownstream(edges: Edges, s: set<Node>, x: Node)
    requires Starved(edges, s) && x in s
    ensures DownstreamOfCycle(edges, x)
  {
    forall k: nat
      ensures HasChain(edges, x, k)
    {
      StarvedHasChains(edges, s, x, k);
    }
    DownstreamIffAllChains(edges, x);
  }

  lemma CyclicIffDownstream(edges: Edges)
    ensures Cyclic(edges) <==> exists x :: DownstreamOfCycle(edges, x)
  {
    if Cyclic(edges) {
      var x :| OnCycle(edges, x);
      ReachesItself(edges, x);
      assert DownstreamOfCycle(edges, x);
    }
  }

  // ---------------------------------------------------------------- edges turned round

  /** The node lies on a cycle or reaches one. */
  ghost predicate UpstreamOfCycle(edges: Edges, x: Node) {
    exists y :: OnCycle(edges, y) && Reaches(edges, x, y)
  }

  function Turned(edges: Edges): Edges {
    set e | e in edges :: (e.1, e.0)
  }

  lemma TurnedEdge(edges: Edges, x: Node, y: Node)
    ensures (x, y) in Turned(edges) <==> (y, x) in edges
  {
    if (y, x) in edges {
      var e := (y, x);
      assert e in edges && (e.1, e.0) in Turned(edges);
    }
  }

  lemma TurnedTwice(edges: Edges)
    ensures Turned(Turned(edges)) == edges
  {
    forall x, y
      ensures (x, y) in Turned(Turned(edges)) <==> (x, y) in edges
    {
      TurnedEdge(Turned(edges), x, y);
      TurnedEdge(edges, y, x);
    }
  }

  function Backwards(w: seq<Node>): seq<Node> {
    seq(|w|, i requires 0 <= i < |w| => w[|w| - 1 - i])
  }

  lemma WalkBackwards(edges: Edges, w: seq<Node>, x: Node, y: Node)
    requires WalkBetween(edges, w, x, y)
    ensures WalkBetween(Turned(edges), Backwards(w), y, x)
  {
    var b := Backwards(w);
    forall i | 0 <= i < |b| - 1
      ensures (b[i], b[i + 1]) in Turned(edges)
    {
      var k := |w| - 2 - i;
      assert (w[k], w[k + 1]) in edges;
      TurnedEdge(edges, w[k + 1], w[k]);
    }
  }

  lemma TurnedDownstream(edges: Edges, x: Node)
    requires DownstreamOfCycle(edges, x)
    ensures UpstreamOfCycle(Turned(edges), x)
  {
    var y :| OnCycle(edges, y) && Reaches(edges, y, x);
    var c :| ClosedWalk(edges, c, y);
    var w :| WalkBetween(edges, w, y, x);
    WalkBackwards(edges, c, y, y);
    WalkBackwards(edges, w, y, x);
    assert ClosedWalk(Turned(edges), Backwards(c), y);
    assert WalkBetween(Turned(edges), Backwards(w), x, y);
    assert OnCycle(Turned(edges), y) && Reaches(Turned(edges), x, y);
  }

  ghost predicate HasChildIn(edges: Edges, s: set<Node>, x: Node) {
    exists c :: c in s && (x, c) in edges
  }

  /** Every member of the set has a child in the set. */
  ghost predicate Fertile(edges: Edges, s: set<Node>) {
    forall x {:trigger HasChildIn(edges, s, x)} :: x in s ==> HasChildIn(edges, s, x)
  }

  /** A set in which every node has a child lies upstream of cycles. */
  lemma FertileIsUpstream(edges: Edges, s: set<Node>, x: Node)
    requires Fertile(edges, s) && x in s
    ensures UpstreamOfCycle(edges, x)
  {
    forall y | y in s
      ensures HasParentIn(Turned(edges), s, y)
    {
      assert HasChildIn(edges, s, y);
      var c :| c in s && (y, c) in edges;
      TurnedEdge(edges, c, y);
    }
    StarvedIsDownstream(Turned(edges), s, x);
    TurnedDownstream(Turned(edges), x);
    TurnedTwice(edges);
  }

  /** A node upstream of a cycle has a child. */
  lemma UpstreamHasChild(edges: Edges, x: Node) returns (c: Node)
    requires UpstreamOfCycle(edges, x)
    ensures (x, c) in edges
  {
    var y :| OnCycle(edges, y) && Reaches(edges, x, y);
    var round :| ClosedWalk(edges, round, y);
    var w :| WalkBetween(edges, w, x, y);
    c := if |w| == 1 then round[1] else w[1];
    if |w| == 1 {
      assert (round[0], round[1]) in edges;
    } else {
      assert (w[0], w[1]) in edges;
    }
  }

  lemma DownstreamStep(edges: Edges, x: Node, c: Node)
    requires DownstreamOfCycle(edges, x) && (x, c) in edges
    ensures DownstreamOfCycle(edges, c)
  {
    var y :| OnCycle(edges, y) && Reaches(edges, y, x);
    ReachesStep(edges, y, x, c);
  }
}
