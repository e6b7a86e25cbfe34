/**
 bindings/python/topsort.py: the topological sort, its level-by-level variant and the
 tables both of them consume in place.
 */
module TopSort {
  import opened Sequences
  import opened Walks

  /** What `topsort` returns, or the three values its CycleError carries. */
  datatype Outcome =
    | Sorted(order: seq<Node>)
    | CycleError(order: seq<Node>, numParents: map<Node, int>, children: map<Node, seq<Node>>)

  /** The levels a generator offered, and the CycleError it ended in, if any. */
  datatype LevelOutcome =
    | Exhausted(levels: seq<seq<Node>>)
    | LevelCycleError(levels: seq<seq<Node>>, numParents: map<Node, int>, children: map<Node, seq<Node>>)

  function EdgesOf(pairs: seq<(Node, Node)>): Edges {
    Elements(pairs)
  }

  function NodesOf(pairs: seq<(Node, Node)>): set<Node> {
    Endpoints(EdgesOf(pairs))
  }

  // ---------------------------------------------------------------- the two tables

  /** The children listed for a parent, in the order of the pairs, repeats included. */
  function ChildrenOf(pairs: seq<(Node, Node)>, parent: Node): seq<Node> {
    if pairs == [] then []
    else
      var last := pairs[|pairs| - 1];
      ChildrenOf(pairs[..|pairs| - 1], parent) + if last.0 == parent then [last.1] else []
  }

  /** How many pairs give the child a parent that is not done yet. */
  function Pending(pairs: seq<(Node, Node)>, done: set<Node>, child: Node): nat {
    if pairs == [] then 0
    else
      var last := pairs[|pairs| - 1];
      Pending(pairs[..|pairs| - 1], done, child) + if last.1 == child && last.0 !in done then 1 else 0
  }

  function Kids(children: map<Node, seq<Node>>, parent: Node): seq<Node> {
    if parent in children then children[parent] else []
  }

  /** The parent counts of the nodes that are not done. */
  ghost predicate CountsPending(pairs: seq<(Node, Node)>, nodes: set<Node>, done: set<Node>, numParents: map<Node, int>) {
    && numParents.Keys == nodes - done
    && forall c :: c in numParents ==> numParents[c] == Pending(pairs, done, c)
  }

  /** The child lists of the parents that are not done. */
  ghost predicate ListsChildren(pairs: seq<(Node, Node)>, done: set<Node>, children: map<Node, seq<Node>>) {
    && (forall p :: p in children <==> p !in done && ChildrenOf(pairs, p) != [])
    && (forall p :: p in children ==> children[p] == ChildrenOf(pairs, p))
  }

  /** Tables handed to the level generator: nothing but the occurrences in the child lists matters. */
  ghost predicate ConsistentTables(pairs: seq<(Node, Node)>, numParents: map<Node, int>, children: map<Node, seq<Node>>) {
    && NodesOf(pairs) <= numParents.Keys
    && children.Keys <= numParents.Keys
    && (forall c :: c in numParents ==> numParents[c] == Pending(pairs, {}, c))
    && (forall p :: multiset(Kids(children, p)) == multiset(ChildrenOf(pairs, p)))
  }

  lemma EdgeEndpoints(pairs: seq<(Node, Node)>, p: Node, c: Node)
    requires (p, c) in EdgesOf(pairs)
    ensures p in NodesOf(pairs) && c in NodesOf(pairs)
  {
    assert (p, c).0 in NodesOf(pairs) && (p, c).1 in NodesOf(pairs);
  }

  lemma {:induction false} ChildrenAreEdges(pairs: seq<(Node, Node)>, p: Node, c: Node)
    ensures c in ChildrenOf(pairs, p) <==> (p, c) in EdgesOf(pairs)
  {
    if pairs != [] {
      var front, last := pairs[..|pairs| - 1], pairs[|pairs| - 1];
      ChildrenAreEdges(front, p, c);
      assert pairs == front + [last];
      assert (p, c) in EdgesOf(pairs) <==> (p, c) in EdgesOf(front) || (p, c) == last;
    }
  }

  lemma {:induction false} PendingIsUnmetParent(pairs: seq<(Node, Node)>, done: set<Node>, c: Node)
    ensures Pending(pairs, done, c) > 0 <==> exists p :: p !in done && (p, c) in EdgesOf(pairs)
  {
    if pairs != [] {
      var front, last := pairs[..|pairs| - 1], pairs[|pairs| - 1];
      PendingIsUnmetParent(front, done, c);
      assert pairs == front + [last];
      assert forall p :: (p, c) in EdgesOf(pairs) <==> (p, c) in EdgesOf(front) || (p, c) == last;
    }
  }

  /** Finishing a parent takes as many off a child's count as the parent lists that child. */
  lemma {:induction false} PendingAfter(pairs: seq<(Node, Node)>, done: set<Node>, p: Node, c: Node)
    requires p !in done
    ensures Pending(pairs, done, c) == Pending(pairs, done + {p}, c) + multiset(ChildrenOf(pairs, p))[c]
  {
    if pairs != [] {
      PendingAfter(pairs[..|pairs| - 1], done, p, c);
    }
  }

  method BuildTables(pairs: seq<(Node, Node)>) returns (numParents: map<Node, int>, children: map<Node, seq<Node>>)
    ensures CountsPending(pairs, NodesOf(pairs), {}, numParents)
    ensures ListsChildren(pairs, {}, children)
  {
    numParents, children := map[], map[];
    ghost var seen: seq<(Node, Node)> := [];
    for i := 0 to |pairs|
      invariant seen == pairs[..i]
      invariant CountsPending(seen, NodesOf(seen), {}, numParents)
      invariant ListsChildren(seen, {}, children)
    {
      var (parent, child) := pairs[i];
      CountsStep(seen, parent, child, numParents);
      numParents := CountPair(parent, child, numParents);
      children := children[parent := Kids(children, parent) + [child]];
      PrefixStep(pairs, i);
      seen := seen + [(parent, child)];
    }
    WholePrefix(pairs);
  }

  /** Makes both ends of a pair keys of the table and counts one more parent for the child. */
  function CountPair(parent: Node, child: Node, counts: map<Node, int>): (r: map<Node, int>)
    ensures r.Keys == counts.Keys + {parent, child}
    ensures forall x :: x in r ==> r[x] == (if x in counts then counts[x] else 0) + (if x == child then 1 else 0)
  {
    var withParent := if parent in counts then counts else counts[parent := 0];
    var withBoth := if child in withParent then withParent else withParent[child := 0];
    withBoth[child := withBoth[child] + 1]
  }

  lemma CountsStep(pairs: seq<(Node, Node)>, p: Node, c: Node, counts: map<Node, int>)
    requires CountsPending(pairs, NodesOf(pairs), {}, counts)
    ensures CountsPending(pairs + [(p, c)], NodesOf(pairs + [(p, c)]), {}, CountPair(p, c, counts))
  {
    var now, after := pairs + [(p, c)], CountPair(p, c, counts);
    assert now[..|now| - 1] == pairs;
    forall x | x in after
      ensures after[x] == Pending(now, {}, x)
    {
      if x !in counts {
        NoPending(pairs, {}, x);
      }
    }
  }

  lemma NoPending(pairs: seq<(Node, Node)>, done: set<Node>, c: Node)
    requires c !in NodesOf(pairs)
    ensures Pending(pairs, done, c) == 0
  {
    PendingIsUnmetParent(pairs, done, c);
    if p :| p !in done && (p, c) in EdgesOf(pairs) {
      EdgeEndpoints(pairs, p, c);
    }
  }

  /** The keys with no parents left, in whatever order the dictionary yields them. */
  method KeysWithoutParents(numParents: map<Node, int>) returns (r: seq<Node>)
    ensures Distinct(r)
    ensures forall x :: x in r <==> x in numParents && numParents[x] == 0
  {
    r := [];
    var todo := numParents.Keys;
    while todo != {}
      invariant todo <= numParents.Keys
      invariant Distinct(r)
      invariant forall x :: x in r <==> x in numParents.Keys - todo && numParents[x] == 0
      decreases |todo|
    {
      var x :| x in todo;
      todo := todo - {x};
      if numParents[x] == 0 {
        r := r + [x];
      }
    }
  }

  // ---------------------------------------------------------------- topsort

  ghost predicate ClosedUp(edges: Edges, done: set<Node>) {
    forall q, c {:trigger (q, c) in edges} :: c in done && (q, c) in edges ==> q in done
  }

  ghost predicate ParentsFirst(edges: Edges, order: seq<Node>) {
    forall p, k {:trigger (p, order[k]) in edges} :: 0 <= k < |order| && (p, order[k]) in edges ==> p in order[..k]
  }

  /** In a parents-first order, chains into a node are no longer than its position. */
  lemma {:induction false} PositionBoundsChains(edges: Edges, order: seq<Node>, k: nat)
    requires ParentsFirst(edges, order) && k < |order|
    ensures !HasChain(edges, order[k], k + 1)
  {
    if HasChain(edges, order[k], k + 1) {
      ChainStep(edges, order[k], k);
      var p :| (p, order[k]) in edges && HasChain(edges, p, k);
      var j :| 0 <= j < k && order[j] == p;
      ChainShorter(edges, p, k, j + 1);
      PositionBoundsChains(edges, order, j);
    }
  }

  /** A parents-first order holds no node downstream of a cycle. */
  lemma OrderAvoidsCycles(edges: Edges, order: seq<Node>, x: Node)
    requires ParentsFirst(edges, order) && x in order
    ensures !DownstreamOfCycle(edges, x)
  {
    var k :| 0 <= k < |order| && order[k] == x;
    PositionBoundsChains(edges, order, k);
    DownstreamIffAllChains(edges, x);
  }

  /** Takes one off the count of every listed child and appends those that drop to zero. */
  method KnockDown(kids: seq<Node>, counts: map<Node, int>, answer: seq<Node>)
    returns (numParents: map<Node, int>, longer: seq<Node>, ghost added: seq<Node>)
    requires forall c :: c in kids ==> c in counts
    requires forall c :: c in counts ==> multiset(kids)[c] <= counts[c]
    ensures numParents.Keys == counts.Keys
    ensures forall c :: c in counts ==> numParents[c] == counts[c] - multiset(kids)[c]
    ensures longer == answer + added && Distinct(added)
    ensures forall c :: c in added <==> c in kids && numParents[c] == 0
  {
    numParents, longer, added := counts, answer, [];
    for j := 0 to |kids|
      invariant numParents.Keys == counts.Keys
      invariant forall c :: c in counts ==> numParents[c] == counts[c] - multiset(kids[..j])[c]
      invariant longer == answer + added && Distinct(added)
      invariant forall c :: c in added <==> c in kids[..j] && numParents[c] == 0
    {
      var child := kids[j];
      assert kids[..j + 1] == kids[..j] + [child];
      OccurrencesInPrefix(kids, j + 1, child);
      numParents := numParents[child := numParents[child] - 1];
      if numParents[child] == 0 {
        longer := longer + [child];
        added := added + [child];
      }
    }
    assert kids[..|kids|] == kids;
  }

  /** Deletes a parent from both tables; its children lose one parent for every time it lists them. */
  method FinishParent(parent: Node, counts: map<Node, int>, lists: map<Node, seq<Node>>, answer: seq<Node>)
    returns (numParents: map<Node, int>, children: map<Node, seq<Node>>, longer: seq<Node>, ghost added: seq<Node>)
    requires forall c :: c in Kids(lists, parent) ==> c in counts && c != parent
    requires forall c :: c in counts ==> multiset(Kids(lists, parent))[c] <= counts[c]
    ensures numParents.Keys == counts.Keys - {parent} && children == lists - {parent}
    ensures forall c :: c in numParents ==> numParents[c] == counts[c] - multiset(Kids(lists, parent))[c]
    ensures longer == answer + added && Distinct(added)
    ensures forall c :: c in added <==> c in Kids(lists, parent) && numParents[c] == 0
  {
    numParents, children, longer, added := counts - {parent}, lists, answer, [];
    if parent in children {
      numParents, longer, added := KnockDown(children[parent], numParents, answer);
      children := children - {parent};
    }
  }

  lemma OccurrencesInPrefix(s: seq<Node>, j: nat, c: Node)
    requires j <= |s|
    ensures multiset(s[..j])[c] <= multiset(s)[c]
  {
    assert s == s[..j] + s[j..];
  }

  /** The counts one finished parent leaves behind. */
  lemma CountsAfter(pairs: seq<(Node, Node)>, nodes: set<Node>, done: set<Node>, p: Node,
                    kids: seq<Node>, before: map<Node, int>, after: map<Node, int>)
    requires CountsPending(pairs, nodes, done, before)
    requires p in before && multiset(kids) == multiset(ChildrenOf(pairs, p))
    requires after.Keys == before.Keys - {p}
    requires forall c :: c in after ==> after[c] == before[c] - multiset(kids)[c]
    ensures CountsPending(pairs, nodes, done + {p}, after)
  {
    forall c | c in after
      ensures after[c] == Pending(pairs, done + {p}, c)
    {
      PendingAfter(pairs, done, p, c);
    }
  }

  /** The children of a parent with nothing pending are still counted, often enough. */
  lemma KidsAreCounted(pairs: seq<(Node, Node)>, nodes: set<Node>, done: set<Node>, p: Node, numParents: map<Node, int>)
    requires CountsPending(pairs, nodes, done, numParents) && NodesOf(pairs) <= nodes
    requires p in numParents && numParents[p] == 0
    requires ClosedUp(EdgesOf(pairs), done)
    ensures forall c :: c in ChildrenOf(pairs, p) ==> c in numParents && c != p && numParents[c] > 0
    ensures forall c :: c in numParents ==> multiset(ChildrenOf(pairs, p))[c] <= numParents[c]
  {
    forall c | c in ChildrenOf(pairs, p)
      ensures c in numParents && c != p && numParents[c] > 0
    {
      ChildrenAreEdges(pairs, p, c);
      EdgeEndpoints(pairs, p, c);
      PendingIsUnmetParent(pairs, done, c);
      PendingIsUnmetParent(pairs, done, p);
    }
    forall c | c in numParents
      ensures multiset(ChildrenOf(pairs, p))[c] <= numParents[c]
    {
      PendingAfter(pairs, done, p, c);
    }
  }

  /** When no count is zero, what is left feeds itself, so all of it is downstream of a cycle. */
  lemma LeftoversAreDownstream(pairs: seq<(Node, Node)>, nodes: set<Node>, done: set<Node>, numParents: map<Node, int>)
    requires CountsPending(pairs, nodes, done, numParents) && NodesOf(pairs) <= nodes
    requires forall x :: x in numParents ==> numParents[x] != 0
    ensures Starved(EdgesOf(pairs), numParents.Keys)
    ensures forall x :: x in numParents ==> DownstreamOfCycle(EdgesOf(pairs), x)
  {
    var edges := EdgesOf(pairs);
    forall x | x in numParents
      ensures HasParentIn(edges, numParents.Keys, x)
    {
      PendingIsUnmetParent(pairs, done, x);
      var p :| p !in done && (p, x) in edges;
      EdgeEndpoints(pairs, p, x);
    }
    assert Starved(edges, numParents.Keys);
    forall x | x in numParents
      ensures DownstreamOfCycle(edges, x)
    {
      StarvedIsDownstream(edges, numParents.Keys, x);
    }
  }

  lemma DownstreamIsNode(pairs: seq<(Node, Node)>, x: Node)
    requires DownstreamOfCycle(EdgesOf(pairs), x)
    ensures x in NodesOf(pairs)
  {
    DownstreamIffAllChains(EdgesOf(pairs), x);
    assert HasChain(EdgesOf(pairs), x, 1);
    var w :| WalkTo(EdgesOf(pairs), w, x) && |w| == 2;
    EdgeEndpoints(pairs, w[0], w[1]);
  }

  /** What `topsort` promises of the pairs it was given. */
  ghost predicate TopSortPost(pairs: seq<(Node, Node)>, r: Outcome) {
    var edges := EdgesOf(pairs);
    && Distinct(r.order)
    && ParentsFirst(edges, r.order)
    && (forall x :: x in r.order <==> x in NodesOf(pairs) && !DownstreamOfCycle(edges, x))
    && (r.CycleError? <==> Cyclic(edges))
    && (r.CycleError? ==>
          && (forall x :: x in r.numParents <==> DownstreamOfCycle(edges, x))
          && Starved(edges, r.numParents.Keys)
          && CountsPending(pairs, NodesOf(pairs), Elements(r.order), r.numParents)
          && ListsChildren(pairs, Elements(r.order), r.children))
  }

  /** The tables hold what is pending once the nodes of `done` are finished; nothing is pending for `ready`. */
  ghost predicate TableState(pairs: seq<(Node, Node)>, done: set<Node>, ready: set<Node>, numParents: map<Node, int>) {
    && CountsPending(pairs, NodesOf(pairs), done, numParents)
    && ClosedUp(EdgesOf(pairs), done)
    && (forall c :: c in ready <==> c in numParents && numParents[c] == 0)
  }

  /** The answer holds these nodes, once each, parents first. */
  ghost predicate OrderState(edges: Edges, done: set<Node>, ready: set<Node>, answer: seq<Node>) {
    && Elements(answer) == done + ready <= Endpoints(edges)
    && Distinct(answer)
    && ParentsFirst(edges, answer)
  }

  /** The loop over `answer` has finished the nodes of `done`; the other nodes in it have no parents left. */
  ghost predicate SortState(pairs: seq<(Node, Node)>, done: set<Node>, ready: set<Node>, answer: seq<Node>,
                            numParents: map<Node, int>) {
    TableState(pairs, done, ready, numParents) && OrderState(EdgesOf(pairs), done, ready, answer)
  }

  method TopSort(pairs: seq<(Node, Node)>) returns (r: Outcome)
    ensures TopSortPost(pairs, r)
  {
    var numParents, children := BuildTables(pairs);
    var answer := KeysWithoutParents(numParents);
    RootsComeFirst(pairs, answer, numParents);
    var i := 0;
    ghost var done, ready: set<Node> := {}, Elements(answer);
    WholeSlice(answer);
    while i < |answer|
      invariant i <= |answer| && ready == Elements(answer[i..])
      invariant SortState(pairs, done, ready, answer, numParents)
      invariant ListsChildren(pairs, done, children)
      decreases |NodesOf(pairs)| - i
    {
      var parent := answer[i];
      ghost var counts, shorter := numParents, answer;
      NextSlice(answer, i);
      ParentIsReady(pairs, done, ready, answer, numParents, parent);
      ListsAfter(pairs, done, parent, children);
      ghost var added;
      numParents, children, answer, added := FinishParent(parent, numParents, children, answer);
      StepKeepsOrder(pairs, done, ready, shorter, added, parent, counts, numParents);
      AdvanceSlice(shorter, added, i);
      done, ready := done + {parent}, ready - {parent} + Elements(added);
      i := i + 1;
    }
    WholeSlice(answer);
    SortedOut(pairs, done, answer, numParents, children);
    if numParents != map[] {
      r := CycleError(answer, numParents, children);
    } else {
      r := Sorted(answer);
    }
  }

  lemma ParentIsReady(pairs: seq<(Node, Node)>, done: set<Node>, ready: set<Node>, answer: seq<Node>,
                      numParents: map<Node, int>, parent: Node)
    requires SortState(pairs, done, ready, answer, numParents) && parent in ready
    ensures parent in numParents && parent !in done
    ensures forall c :: c in ChildrenOf(pairs, parent) ==> c in numParents && c != parent && numParents[c] > 0
    ensures forall c :: c in numParents ==> multiset(ChildrenOf(pairs, parent))[c] <= numParents[c]
    ensures |answer| <= |NodesOf(pairs)|
  {
    KidsAreCounted(pairs, NodesOf(pairs), done, parent, numParents);
    DistinctBound(answer, NodesOf(pairs));
  }

  /** When `answer` has stopped growing it has everything but the nodes downstream of a cycle. */
  lemma SortedOut(pairs: seq<(Node, Node)>, done: set<Node>, answer: seq<Node>,
                  numParents: map<Node, int>, children: map<Node, seq<Node>>)
    requires SortState(pairs, done, {}, answer, numParents)
    requires ListsChildren(pairs, done, children)
    ensures TopSortPost(pairs, if numParents != map[] then CycleError(answer, numParents, children) else Sorted(answer))
  {
    var edges := EdgesOf(pairs);
    assert done == Elements(answer);
    LeftoversAreDownstream(pairs, NodesOf(pairs), done, numParents);
    forall x | x in answer
      ensures !DownstreamOfCycle(edges, x)
    {
      OrderAvoidsCycles(edges, answer, x);
    }
    forall x | DownstreamOfCycle(edges, x)
      ensures x in NodesOf(pairs)
    {
      DownstreamIsNode(pairs, x);
    }
    LeftoversMeanCycle(pairs, numParents);
  }

  /** Something is left over exactly when the graph has a cycle. */
  lemma LeftoversMeanCycle(pairs: seq<(Node, Node)>, numParents: map<Node, int>)
    requires forall x :: x in numParents <==> DownstreamOfCycle(EdgesOf(pairs), x)
    ensures numParents != map[] <==> Cyclic(EdgesOf(pairs))
  {
    CyclicIffDownstream(EdgesOf(pairs));
    if numParents != map[] {
      var x :| x in numParents;
      assert DownstreamOfCycle(EdgesOf(pairs), x);
    }
  }

  lemma RootsComeFirst(pairs: seq<(Node, Node)>, roots: seq<Node>, numParents: map<Node, int>)
    requires CountsPending(pairs, NodesOf(pairs), {}, numParents)
    requires Distinct(roots) && forall x :: x in roots <==> x in numParents && numParents[x] == 0
    ensures SortState(pairs, {}, Elements(roots), roots, numParents)
  {
    forall p, x | x in roots
      ensures (p, x) !in EdgesOf(pairs)
    {
      PendingIsUnmetParent(pairs, {}, x);
    }
  }

  /** Appending the children that just lost their last parent keeps the order sound. */
  lemma StepKeepsOrder(pairs: seq<(Node, Node)>, done: set<Node>, ready: set<Node>, answer: seq<Node>, added: seq<Node>,
                       parent: Node, counts: map<Node, int>, after: map<Node, int>)
    requires SortState(pairs, done, ready, answer, counts) && parent in ready
    requires after.Keys == counts.Keys - {parent}
    requires forall c :: c in after ==> after[c] == counts[c] - multiset(ChildrenOf(pairs, parent))[c]
    requires Distinct(added)
    requires forall c :: c in added <==> c in ChildrenOf(pairs, parent) && c in after && after[c] == 0
    ensures SortState(pairs, done + {parent}, ready - {parent} + Elements(added), answer + added, after)
  {
    StepTables(pairs, done, ready, added, parent, counts, after);
    NewInAnswer(answer, done, ready, added, counts);
    AddedAreReady(pairs, done + {parent}, added, after);
    OrderExtends(EdgesOf(pairs), answer, added, done + {parent});
    MoveToDone(done, ready, answer, added, parent, NodesOf(pairs));
  }

  lemma StepTables(pairs: seq<(Node, Node)>, done: set<Node>, ready: set<Node>, added: seq<Node>,
                   parent: Node, counts: map<Node, int>, after: map<Node, int>)
    requires TableState(pairs, done, ready, counts) && parent in ready
    requires after.Keys == counts.Keys - {parent}
    requires forall c :: c in after ==> after[c] == counts[c] - multiset(ChildrenOf(pairs, parent))[c]
    requires forall c :: c in added <==> c in ChildrenOf(pairs, parent) && c in after && after[c] == 0
    ensures TableState(pairs, done + {parent}, ready - {parent} + Elements(added), after)
    ensures forall c :: c in added ==> c !in ready && c in counts
  {
    KidsAreCounted(pairs, NodesOf(pairs), done, parent, counts);
    CountsAfter(pairs, NodesOf(pairs), done, parent, ChildrenOf(pairs, parent), counts, after);
    NewlyReady(ChildrenOf(pairs, parent), ready, added, parent, counts, after);
    PendingIsUnmetParent(pairs, done, parent);
  }

  lemma NewInAnswer(answer: seq<Node>, done: set<Node>, ready: set<Node>, added: seq<Node>, counts: map<Node, int>)
    requires Distinct(answer) && Distinct(added) && Elements(answer) == done + ready
    requires forall c :: c in added ==> c !in ready && c in counts
    requires forall c :: c in counts ==> c !in done
    ensures Distinct(answer + added)
  {
    forall c | c in answer
      ensures c !in added
    {
      assert c in Elements(answer);
    }
    DistinctConcat(answer, added);
  }

  lemma AddedAreReady(pairs: seq<(Node, Node)>, done: set<Node>, added: seq<Node>, counts: map<Node, int>)
    requires forall c :: c in added ==> c in counts && counts[c] == 0
    requires forall c :: c in counts ==> counts[c] == Pending(pairs, done, c)
    ensures forall p, c :: c in added && (p, c) in EdgesOf(pairs) ==> p in done
  {
    forall p, c | c in added && (p, c) in EdgesOf(pairs)
      ensures p in done
    {
      PendingIsUnmetParent(pairs, done, c);
    }
  }

  lemma MoveToDone(done: set<Node>, ready: set<Node>, answer: seq<Node>, added: seq<Node>, parent: Node, nodes: set<Node>)
    requires Elements(answer) == done + ready <= nodes && parent in ready
    requires forall c :: c in added ==> c in nodes
    ensures Elements(answer + added) == (done + {parent}) + (ready - {parent} + Elements(added)) <= nodes
  {
    assert Elements(answer + added) == Elements(answer) + Elements(added);
  }

  lemma ListsAfter(pairs: seq<(Node, Node)>, done: set<Node>, p: Node, lists: map<Node, seq<Node>>)
    requires ListsChildren(pairs, done, lists) && p !in done
    ensures Kids(lists, p) == ChildrenOf(pairs, p)
    ensures ListsChildren(pairs, done + {p}, lists - {p})
    ensures p !in lists ==> lists - {p} == lists
  {
  }

  lemma NextSlice(s: seq<Node>, i: nat)
    requires i < |s|
    ensures s[i] in s[i..] && Elements(s[i..]) == {s[i]} + Elements(s[i + 1..])
  {
    assert s[i..] == [s[i]] + s[i + 1..];
  }

  /** What is left of the growing list after the position the loop has reached. */
  lemma AdvanceSlice(answer: seq<Node>, added: seq<Node>, i: nat)
    requires i < |answer| && Distinct(answer)
    ensures Elements((answer + added)[i + 1..]) == Elements(answer[i..]) - {answer[i]} + Elements(added)
  {
    NextSlice(answer, i);
    assert (answer + added)[i + 1..] == answer[i + 1..] + added;
  }

  lemma WholeSlice(s: seq<Node>)
    ensures s[..|s|] == s && Elements(s[|s|..]) == {} && s[0..] == s
  {
  }

  lemma OrderExtends(edges: Edges, answer: seq<Node>, added: seq<Node>, ready: set<Node>)
    requires ParentsFirst(edges, answer) && forall p :: p in ready ==> p in answer
    requires forall p, c :: c in added && (p, c) in edges ==> p in ready
    ensures ParentsFirst(edges, answer + added)
  {
    var longer := answer + added;
    forall p, k | 0 <= k < |longer| && (p, longer[k]) in edges
      ensures p in longer[..k]
    {
      if k < |answer| {
        assert longer[..k] == answer[..k];
      } else {
        var m := k - |answer|;
        assert longer[k] == added[m] && added[m] in added;
        assert p in answer;
        assert longer[..k] == answer + added[..m];
      }
    }
  }

  lemma NewlyReady(kids: seq<Node>, ready: set<Node>, added: seq<Node>, parent: Node,
                   counts: map<Node, int>, after: map<Node, int>)
    requires forall c :: c in ready <==> c in counts && counts[c] == 0
    requires after.Keys == counts.Keys - {parent}
    requires forall c :: c in after ==> after[c] == counts[c] - multiset(kids)[c]
    requires forall c :: c in kids ==> c in counts && c != parent && counts[c] > 0
    requires forall c :: c in added <==> c in kids && c in after && after[c] == 0
    ensures forall c :: c in added ==> c !in ready && c in counts
    ensures forall c :: c in ready - {parent} + Elements(added) <==> c in after && after[c] == 0
  {
    assert forall c :: c in multiset(kids) <==> c in kids;
  }

  // ---------------------------------------------------------------- topsort_levels

  /** All levels offered so far, in one sequence. */
  function Flat(levels: seq<seq<Node>>): seq<Node> {
    if levels == [] then [] else Flat(levels[..|levels| - 1]) + levels[|levels| - 1]
  }

  /** Level k holds, once each, exactly the nodes whose longest chain of predecessors has k edges. */
  ghost predicate LevelsByDepth(edges: Edges, nodes: set<Node>, levels: seq<seq<Node>>) {
    forall k :: 0 <= k < |levels| ==>
      && levels[k] != []
      && Distinct(levels[k])
      && forall x :: x in levels[k] <==> x in nodes && LongestChainIs(edges, x, k)
  }

  /** What the level generator promises of the graph its tables describe. */
  ghost predicate LevelsPost(pairs: seq<(Node, Node)>, nodes: set<Node>, r: LevelOutcome) {
    var edges := EdgesOf(pairs);
    && LevelsByDepth(edges, nodes, r.levels)
    && (forall x :: x in nodes ==> (x in Flat(r.levels) <==> !DownstreamOfCycle(edges, x)))
    && (r.LevelCycleError? <==> Cyclic(edges))
    && (r.LevelCycleError? ==>
          && (forall x :: x in r.numParents <==> DownstreamOfCycle(edges, x))
          && CountsPending(pairs, nodes, Elements(Flat(r.levels)), r.numParents))
  }

  method TopSortLevels(pairs: seq<(Node, Node)>) returns (r: LevelOutcome)
    ensures LevelsPost(pairs, NodesOf(pairs), r)
    ensures r.LevelCycleError? ==> ListsChildren(pairs, Elements(Flat(r.levels)), r.children)
  {
    var numParents, children := BuildTables(pairs);
    forall p | p in children
      ensures p in numParents
    {
      assert ChildrenOf(pairs, p)[0] in ChildrenOf(pairs, p);
      ChildrenAreEdges(pairs, p, ChildrenOf(pairs, p)[0]);
      EdgeEndpoints(pairs, p, ChildrenOf(pairs, p)[0]);
    }
    r := TopSortLevelsCore(pairs, numParents, children);
  }

  method DecrementAll(kids: seq<Node>, counts: map<Node, int>) returns (numParents: map<Node, int>)
    requires forall c :: c in kids ==> c in counts
    ensures numParents.Keys == counts.Keys
    ensures forall c :: c in counts ==> numParents[c] == counts[c] - multiset(kids)[c]
  {
    numParents := counts;
    for j := 0 to |kids|
      invariant numParents.Keys == counts.Keys
      invariant forall c :: c in counts ==> numParents[c] == counts[c] - multiset(kids[..j])[c]
    {
      assert kids[..j + 1] == kids[..j] + [kids[j]];
      numParents := numParents[kids[j] := numParents[kids[j]] - 1];
    }
    assert kids[..|kids|] == kids;
  }

  method FinishLevelParent(parent: Node, counts: map<Node, int>, lists: map<Node, seq<Node>>)
    returns (numParents: map<Node, int>, children: map<Node, seq<Node>>)
    requires forall c :: c in Kids(lists, parent) ==> c in counts && c != parent
    ensures numParents.Keys == counts.Keys - {parent} && children == lists - {parent}
    ensures forall c :: c in numParents ==> numParents[c] == counts[c] - multiset(Kids(lists, parent))[c]
  {
    numParents, children := counts - {parent}, lists;
    if parent in children {
      numParents := DecrementAll(children[parent], numParents);
      children := children - {parent};
    }
  }

  /** The nodes finished after k levels are those without a chain of k edges. */
  ghost predicate DoneByDepth(edges: Edges, nodes: set<Node>, done: set<Node>, k: nat) {
    done <= nodes && forall x :: x in nodes ==> (x in done <==> !HasChain(edges, x, k))
  }

  /** With k levels done, the nodes that have nothing pending are the ones of depth k. */
  lemma NextLevel(pairs: seq<(Node, Node)>, nodes: set<Node>, done: set<Node>, numParents: map<Node, int>, k: nat, x: Node)
    requires CountsPending(pairs, nodes, done, numParents) && NodesOf(pairs) <= nodes
    requires DoneByDepth(EdgesOf(pairs), nodes, done, k) && x in nodes
    ensures x in numParents && numParents[x] == 0 <==> LongestChainIs(EdgesOf(pairs), x, k)
    ensures x in done || (x in numParents && numParents[x] == 0) <==> !HasChain(EdgesOf(pairs), x, k + 1)
  {
    var edges := EdgesOf(pairs);
    ChainStep(edges, x, k);
    LongestChainByNeighbours(edges, x, k);
    PendingIsUnmetParent(pairs, done, x);
    if HasChain(edges, x, k + 1) {
      ChainShorter(edges, x, k + 1, k);
      var p :| (p, x) in edges && HasChain(edges, p, k);
      EdgeEndpoints(pairs, p, x);
    }
    if p :| p !in done && (p, x) in edges {
      EdgeEndpoints(pairs, p, x);
    }
  }

  lemma DoneByDepthIsClosed(pairs: seq<(Node, Node)>, nodes: set<Node>, done: set<Node>, k: nat)
    requires DoneByDepth(EdgesOf(pairs), nodes, done, k) && NodesOf(pairs) <= nodes
    ensures ClosedUp(EdgesOf(pairs), done)
  {
    forall q, c | c in done && (q, c) in EdgesOf(pairs)
      ensures q in done
    {
      EdgeEndpoints(pairs, q, c);
      if HasChain(EdgesOf(pairs), q, k) {
        ChainStep(EdgesOf(pairs), c, k);
        ChainShorter(EdgesOf(pairs), c, k + 1, k);
      }
    }
  }

  /** The generator has offered `levels` and finished their nodes. */
  ghost predicate LevelState(pairs: seq<(Node, Node)>, nodes: set<Node>, done: set<Node>,
                             levels: seq<seq<Node>>, numParents: map<Node, int>) {
    && DoneByDepth(EdgesOf(pairs), nodes, done, |levels|)
    && CountsPending(pairs, nodes, done, numParents)
    && LevelsByDepth(EdgesOf(pairs), nodes, levels)
  }

  method TopSortLevelsCore(ghost pairs: seq<(Node, Node)>, counts: map<Node, int>, lists: map<Node, seq<Node>>)
    returns (r: LevelOutcome)
    requires ConsistentTables(pairs, counts, lists)
    ensures LevelsPost(pairs, counts.Keys, r)
    ensures r.LevelCycleError? ==> r.children == lists - Elements(Flat(r.levels))
  {
    ghost var nodes := counts.Keys;
    var numParents, children := counts, lists;
    var levels: seq<seq<Node>> := [];
    ghost var done: set<Node> := {};
    NoLevelsYet(pairs, nodes, counts);
    var levelParents := KeysWithoutParents(numParents);
    while levelParents != []
      invariant done == Elements(Flat(levels))
      invariant LevelState(pairs, nodes, done, levels, numParents)
      invariant children == lists - done
      invariant Distinct(levelParents)
      invariant forall x :: x in levelParents <==> x in numParents && numParents[x] == 0
      decreases |nodes - done|
    {
      LevelOffered(pairs, nodes, done, levels, levelParents, numParents);
      FlatAppended(levels, levelParents);
      numParents, children := FinishLevel(pairs, nodes, done, |levels|, levelParents, numParents, lists, children);
      levels := levels + [levelParents];
      done := done + Elements(levelParents);
      levelParents := KeysWithoutParents(numParents);
    }
    LevelsExhausted(pairs, nodes, done, levels, numParents, children);
    if numParents != map[] {
      r := LevelCycleError(levels, numParents, children);
    } else {
      r := Exhausted(levels);
    }
  }

  lemma NoLevelsYet(pairs: seq<(Node, Node)>, nodes: set<Node>, counts: map<Node, int>)
    requires CountsPending(pairs, nodes, {}, counts)
    ensures LevelState(pairs, nodes, {}, [], counts)
  {
    forall x | x in nodes
      ensures HasChain(EdgesOf(pairs), x, 0)
    {
      ChainOfNone(EdgesOf(pairs), x);
    }
  }

  lemma LevelByDepth(pairs: seq<(Node, Node)>, nodes: set<Node>, done: set<Node>,
                     numParents: map<Node, int>, k: nat, level: seq<Node>, x: Node)
    requires CountsPending(pairs, nodes, done, numParents) && NodesOf(pairs) <= nodes
    requires DoneByDepth(EdgesOf(pairs), nodes, done, k)
    requires x in level <==> x in numParents && numParents[x] == 0
    ensures x in level <==> x in nodes && LongestChainIs(EdgesOf(pairs), x, k)
    ensures x in nodes ==> (x in done || x in level <==> !HasChain(EdgesOf(pairs), x, k + 1))
  {
    if x in nodes {
      NextLevel(pairs, nodes, done, numParents, k, x);
    }
  }

  lemma LevelIsDepth(pairs: seq<(Node, Node)>, nodes: set<Node>, done: set<Node>,
                     levels: seq<seq<Node>>, level: seq<Node>, numParents: map<Node, int>)
    requires CountsPending(pairs, nodes, done, numParents) && NodesOf(pairs) <= nodes
    requires DoneByDepth(EdgesOf(pairs), nodes, done, |levels|) && LevelsByDepth(EdgesOf(pairs), nodes, levels)
    requires level != [] && Distinct(level)
    requires forall x :: x in level <==> x in numParents && numParents[x] == 0
    ensures LevelsByDepth(EdgesOf(pairs), nodes, levels + [level])
  {
    forall x
      ensures x in level <==> x in nodes && LongestChainIs(EdgesOf(pairs), x, |levels|)
    {
      LevelByDepth(pairs, nodes, done, numParents, |levels|, level, x);
    }
  }

  lemma LevelDone(pairs: seq<(Node, Node)>, nodes: set<Node>, done: set<Node>,
                  numParents: map<Node, int>, k: nat, level: seq<Node>)
    requires CountsPending(pairs, nodes, done, numParents) && NodesOf(pairs) <= nodes
    requires DoneByDepth(EdgesOf(pairs), nodes, done, k)
    requires forall x :: x in level <==> x in numParents && numParents[x] == 0
    ensures DoneByDepth(EdgesOf(pairs), nodes, done + Elements(level), k + 1)
  {
    forall x | x in nodes
      ensures x in done + Elements(level) <==> !HasChain(EdgesOf(pairs), x, k + 1)
    {
      LevelByDepth(pairs, nodes, done, numParents, k, level, x);
    }
  }

  /** The keys without parents are the next level, and finishing them advances the depth by one. */
  lemma LevelOffered(pairs: seq<(Node, Node)>, nodes: set<Node>, done: set<Node>,
                     levels: seq<seq<Node>>, level: seq<Node>, numParents: map<Node, int>)
    requires LevelState(pairs, nodes, done, levels, numParents) && NodesOf(pairs) <= nodes
    requires level != [] && Distinct(level)
    requires forall x :: x in level <==> x in numParents && numParents[x] == 0
    ensures LevelsByDepth(EdgesOf(pairs), nodes, levels + [level])
    ensures DoneByDepth(EdgesOf(pairs), nodes, done + Elements(level), |levels| + 1)
    ensures |nodes - (done + Elements(level))| < |nodes - done|
  {
    LevelIsDepth(pairs, nodes, done, levels, level, numParents);
    LevelDone(pairs, nodes, done, numParents, |levels|, level);
    assert level[0] in nodes - done;
    LevelShrinks(nodes, done, Elements(level), level[0]);
  }

  lemma LevelShrinks(nodes: set<Node>, done: set<Node>, gone: set<Node>, x: Node)
    requires x in nodes - done && x in gone
    ensures |nodes - (done + gone)| < |nodes - done|
  {
    SubsetCardinality(nodes - (done + gone), (nodes - done) - {x});
  }

  lemma FlatAppended(levels: seq<seq<Node>>, level: seq<Node>)
    ensures Elements(Flat(levels + [level])) == Elements(Flat(levels)) + Elements(level)
  {
    assert (levels + [level])[..|levels|] == levels;
  }

  lemma LevelsExhausted(pairs: seq<(Node, Node)>, nodes: set<Node>, done: set<Node>, levels: seq<seq<Node>>,
                        numParents: map<Node, int>, children: map<Node, seq<Node>>)
    requires LevelState(pairs, nodes, done, levels, numParents) && NodesOf(pairs) <= nodes
    requires done == Elements(Flat(levels))
    requires forall x :: x in numParents ==> numParents[x] != 0
    ensures LevelsPost(pairs, nodes,
                       if numParents != map[] then LevelCycleError(levels, numParents, children) else Exhausted(levels))
  {
    LeftoversAreDownstream(pairs, nodes, done, numParents);
    forall x | x in done
      ensures !DownstreamOfCycle(EdgesOf(pairs), x)
    {
      DownstreamIffAllChains(EdgesOf(pairs), x);
    }
    forall x | DownstreamOfCycle(EdgesOf(pairs), x)
      ensures x in nodes
    {
      DownstreamIsNode(pairs, x);
    }
    LeftoversMeanCycle(pairs, numParents);
  }

  /** Deletes the nodes of one level and knocks down the counts of all their children. */
  method FinishLevel(ghost pairs: seq<(Node, Node)>, ghost nodes: set<Node>, ghost before: set<Node>, ghost k: nat,
                     level: seq<Node>, counts: map<Node, int>, ghost lists: map<Node, seq<Node>>, kept: map<Node, seq<Node>>)
    returns (numParents: map<Node, int>, children: map<Node, seq<Node>>)
    requires NodesOf(pairs) <= nodes
    requires forall p :: multiset(Kids(lists, p)) == multiset(ChildrenOf(pairs, p))
    requires CountsPending(pairs, nodes, before, counts) && DoneByDepth(EdgesOf(pairs), nodes, before, k)
    requires kept == lists - before
    requires Distinct(level) && forall x :: x in level <==> x in counts && counts[x] == 0
    ensures CountsPending(pairs, nodes, before + Elements(level), numParents)
    ensures children == lists - (before + Elements(level))
  {
    numParents, children := counts, kept;
    ghost var done, taken: set<Node> := before, {};
    DoneByDepthIsClosed(pairs, nodes, before, k);
    for m := 0 to |level|
      invariant done == before + taken && taken == Elements(level[..m])
      invariant CountsPending(pairs, nodes, done, numParents) && ClosedUp(EdgesOf(pairs), done)
      invariant children == lists - done
    {
      var parent := level[m];
      PrefixGrows(level, m);
      LevelParentIsReady(pairs, nodes, before, done, parent, counts, numParents, lists);
      ghost var was := numParents;
      numParents, children := FinishLevelParent(parent, numParents, children);
      LevelParentDone(pairs, nodes, before, done, parent, was, numParents, lists);
      done, taken := done + {parent}, taken + {parent};
    }
    WholeSlice(level);
  }

  lemma PrefixGrows(s: seq<Node>, m: nat)
    requires m < |s| && Distinct(s)
    ensures Elements(s[..m + 1]) == Elements(s[..m]) + {s[m]}
    ensures s[m] in s && s[m] !in Elements(s[..m])
  {
    assert s[..m + 1] == s[..m] + [s[m]];
  }

  lemma SameOccurrences(a: seq<Node>, b: seq<Node>)
    requires multiset(a) == multiset(b)
    ensures forall c :: c in a <==> c in b
  {
    forall c
      ensures c in a <==> c in b
    {
      assert c in a <==> c in multiset(a);
      assert c in b <==> c in multiset(b);
    }
  }

  /** The other nodes of a level do not disturb one another's counts. */
  lemma LevelParentIsReady(pairs: seq<(Node, Node)>, nodes: set<Node>, before: set<Node>, done: set<Node>,
                           parent: Node, counts: map<Node, int>, numParents: map<Node, int>, lists: map<Node, seq<Node>>)
    requires parent in counts && counts[parent] == 0 && parent !in done && before <= done && NodesOf(pairs) <= nodes
    requires CountsPending(pairs, nodes, before, counts) && CountsPending(pairs, nodes, done, numParents)
    requires ClosedUp(EdgesOf(pairs), before) && ClosedUp(EdgesOf(pairs), done)
    requires multiset(Kids(lists, parent)) == multiset(ChildrenOf(pairs, parent))
    ensures parent in numParents && Kids(lists - done, parent) == Kids(lists, parent)
    ensures forall q :: (q, parent) in EdgesOf(pairs) ==> q in before
    ensures forall c :: c in Kids(lists, parent) ==> c in numParents && c != parent
  {
    StillZero(pairs, nodes, before, done, counts, numParents, parent);
    KidsAreCounted(pairs, nodes, done, parent, numParents);
    PendingIsUnmetParent(pairs, before, parent);
    SameOccurrences(Kids(lists, parent), ChildrenOf(pairs, parent));
  }

  lemma LevelParentDone(pairs: seq<(Node, Node)>, nodes: set<Node>, before: set<Node>, done: set<Node>,
                        parent: Node, was: map<Node, int>, numParents: map<Node, int>, lists: map<Node, seq<Node>>)
    requires CountsPending(pairs, nodes, done, was) && ClosedUp(EdgesOf(pairs), done) && before <= done
    requires parent in was && multiset(Kids(lists, parent)) == multiset(ChildrenOf(pairs, parent))
    requires forall q :: (q, parent) in EdgesOf(pairs) ==> q in before
    requires numParents.Keys == was.Keys - {parent}
    requires forall c :: c in numParents ==> numParents[c] == was[c] - multiset(Kids(lists, parent))[c]
    ensures CountsPending(pairs, nodes, done + {parent}, numParents)
    ensures ClosedUp(EdgesOf(pairs), done + {parent})
    ensures (lists - done) - {parent} == lists - (done + {parent})
  {
    CountsAfter(pairs, nodes, done, parent, Kids(lists, parent), was, numParents);
  }

  lemma StillZero(pairs: seq<(Node, Node)>, nodes: set<Node>, before: set<Node>, done: set<Node>,
                  counts: map<Node, int>, numParents: map<Node, int>, x: Node)
    requires CountsPending(pairs, nodes, before, counts) && CountsPending(pairs, nodes, done, numParents)
    requires before <= done && x in counts && counts[x] == 0 && x !in done
    ensures x in numParents && numParents[x] == 0
  {
    PendingIsUnmetParent(pairs, before, x);
    PendingIsUnmetParent(pairs, done, x);
  }

  /** No level repeats a node of an earlier one: a node has one depth. */
  lemma LevelsDisjoint(edges: Edges, nodes: set<Node>, levels: seq<seq<Node>>, i: nat, j: nat, x: Node)
    requires LevelsByDepth(edges, nodes, levels)
    requires i < |levels| && j < |levels| && x in levels[i] && x in levels[j]
    ensures i == j
  {
    assert LongestChainIs(edges, x, i) && LongestChainIs(edges, x, j);
  }

  // ---------------------------------------------------------------- the comment beside the CycleError

  /** "Everything in num_parents has at least one child." */
  ghost predicate EveryLeftoverHasChild(numParents: map<Node, int>, children: map<Node, seq<Node>>) {
    forall x :: x in numParents ==> Kids(children, x) != []
  }

  /** Everything below a cycle lies on a cycle or above one. */
  ghost predicate NoDeadEnd(edges: Edges) {
    forall x :: DownstreamOfCycle(edges, x) ==> UpstreamOfCycle(edges, x)
  }

  /** The error carries the nodes downstream of a cycle, each with its children, in any order. */
  ghost predicate LeftoverTables(pairs: seq<(Node, Node)>, numParents: map<Node, int>, children: map<Node, seq<Node>>) {
    && (forall x :: x in numParents <==> DownstreamOfCycle(EdgesOf(pairs), x))
    && (forall x :: x in numParents ==> multiset(Kids(children, x)) == multiset(ChildrenOf(pairs, x)))
  }

  lemma KidsAreEdges(pairs: seq<(Node, Node)>, numParents: map<Node, int>, children: map<Node, seq<Node>>, x: Node)
    requires LeftoverTables(pairs, numParents, children) && x in numParents
    ensures Kids(children, x) != [] <==> exists c :: c in numParents && (x, c) in EdgesOf(pairs)
  {
    SameOccurrences(Kids(children, x), ChildrenOf(pairs, x));
    if Kids(children, x) != [] {
      var c := Kids(children, x)[0];
      assert c in Kids(children, x);
      ChildrenAreEdges(pairs, x, c);
      DownstreamStep(EdgesOf(pairs), x, c);
    }
    if c :| c in numParents && (x, c) in EdgesOf(pairs) {
      ChildrenAreEdges(pairs, x, c);
    }
  }

  lemma ChildrenThenNoDeadEnd(pairs: seq<(Node, Node)>, numParents: map<Node, int>, children: map<Node, seq<Node>>, x: Node)
    requires LeftoverTables(pairs, numParents, children) && EveryLeftoverHasChild(numParents, children)
    requires DownstreamOfCycle(EdgesOf(pairs), x)
    ensures UpstreamOfCycle(EdgesOf(pairs), x)
  {
    LeftoversAreFertile(pairs, numParents, children);
    FertileIsUpstream(EdgesOf(pairs), numParents.Keys, x);
  }

  lemma LeftoversAreFertile(pairs: seq<(Node, Node)>, numParents: map<Node, int>, children: map<Node, seq<Node>>)
    requires LeftoverTables(pairs, numParents, children) && EveryLeftoverHasChild(numParents, children)
    ensures Fertile(EdgesOf(pairs), numParents.Keys)
  {
    forall y | y in numParents
      ensures HasChildIn(EdgesOf(pairs), numParents.Keys, y)
    {
      assert Kids(children, y) != [];
      LeftoverHasChildLeft(pairs, numParents, children, y);
    }
  }

  lemma LeftoverHasChildLeft(pairs: seq<(Node, Node)>, numParents: map<Node, int>, children: map<Node, seq<Node>>, x: Node)
    requires LeftoverTables(pairs, numParents, children) && x in numParents && Kids(children, x) != []
    ensures HasChildIn(EdgesOf(pairs), numParents.Keys, x)
  {
    KidsAreEdges(pairs, numParents, children, x);
  }

  lemma NoDeadEndThenChild(pairs: seq<(Node, Node)>, numParents: map<Node, int>, children: map<Node, seq<Node>>, x: Node)
    requires LeftoverTables(pairs, numParents, children) && NoDeadEnd(EdgesOf(pairs)) && x in numParents
    ensures Kids(children, x) != []
  {
    var c := UpstreamHasChild(EdgesOf(pairs), x);
    DownstreamStep(EdgesOf(pairs), x, c);
    KidsAreEdges(pairs, numParents, children, x);
  }

  /** The comment is right exactly when nothing that hangs below a cycle ends without reaching one. */
  lemma EveryLeftoverHasChildIff(pairs: seq<(Node, Node)>, numParents: map<Node, int>, children: map<Node, seq<Node>>)
    requires LeftoverTables(pairs, numParents, children)
    ensures EveryLeftoverHasChild(numParents, children) <==> NoDeadEnd(EdgesOf(pairs))
  {
    if EveryLeftoverHasChild(numParents, children) {
      forall x | DownstreamOfCycle(EdgesOf(pairs), x)
        ensures UpstreamOfCycle(EdgesOf(pairs), x)
      {
        ChildrenThenNoDeadEnd(pairs, numParents, children, x);
      }
    }
    if NoDeadEnd(EdgesOf(pairs)) {
      forall x | x in numParents
        ensures Kids(children, x) != []
      {
        NoDeadEndThenChild(pairs, numParents, children, x);
      }
    }
  }

  /** So it is with the error of `topsort` ... */
  lemma SortLeftovers(pairs: seq<(Node, Node)>, r: Outcome)
    requires TopSortPost(pairs, r) && r.CycleError?
    ensures EveryLeftoverHasChild(r.numParents, r.children) <==> NoDeadEnd(EdgesOf(pairs))
  {
    forall x | x in r.numParents
      ensures Kids(r.children, x) == ChildrenOf(pairs, x)
    {
      assert x !in r.order;
    }
    EveryLeftoverHasChildIff(pairs, r.numParents, r.children);
  }

  /** ... and with the error of the level generator. */
  lemma LevelLeftovers(pairs: seq<(Node, Node)>, counts: map<Node, int>, lists: map<Node, seq<Node>>, r: LevelOutcome)
    requires ConsistentTables(pairs, counts, lists) && LevelsPost(pairs, counts.Keys, r)
    requires r.LevelCycleError? && r.children == lists - Elements(Flat(r.levels))
    ensures EveryLeftoverHasChild(r.numParents, r.children) <==> NoDeadEnd(EdgesOf(pairs))
  {
    forall x | x in r.numParents
      ensures Kids(r.children, x) == Kids(lists, x)
    {
      assert x !in Flat(r.levels);
    }
    EveryLeftoverHasChildIff(pairs, r.numParents, r.children);
  }

  /** An input on which the comment is wrong: a node that merely hangs below a cycle has no child. */
  lemma LeftoverWithoutChild(a: Node, b: Node)
    requires a != b
    ensures !NoDeadEnd(EdgesOf([(a, a), (a, b)]))
    ensures DownstreamOfCycle(EdgesOf([(a, a), (a, b)]), b) && ChildrenOf([(a, a), (a, b)], b) == []
  {
    var pairs := [(a, a), (a, b)];
    var edges := EdgesOf(pairs);
    assert pairs[0] in edges && pairs[1] in edges;
    assert ClosedWalk(edges, [a, a], a);
    assert WalkBetween(edges, [a, b], a, b);
    assert OnCycle(edges, a) && Reaches(edges, a, b);
    if ChildrenOf(pairs, b) != [] {
      ChildrenAreEdges(pairs, b, ChildrenOf(pairs, b)[0]);
    }
    if UpstreamOfCycle(edges, b) {
      var c := UpstreamHasChild(edges, b);
      ChildrenAreEdges(pairs, b, c);
    }
  }
}
