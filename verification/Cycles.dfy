/**
 Rotations of sequences and the elementary cycles of a graph.
 */
module Cycles {
  import opened Sequences
  import opened Walks

  // ---------------------------------------------------------------- rotations

  ghost predicate RotatedBy<T>(a: seq<T>, k: nat, b: seq<T>) {
    k <= |a| && a[k..] + a[..k] == b
  }

  /** b is a rotation of a. */
  ghost predicate Rotation<T>(a: seq<T>, b: seq<T>) {
    exists k: nat :: RotatedBy(a, k, b)
  }

  lemma RotationSelf<T>(a: seq<T>)
    ensures Rotation(a, a)
  {
    assert RotatedBy(a, 0, a);
  }

  lemma RotationsCompose<T>(a: seq<T>, k: nat, m: nat)
    requires k <= |a| && m <= |a|
    ensures var b := a[k..] + a[..k];
            RotatedBy(a, if k + m <= |a| then k + m else k + m - |a|, b[m..] + b[..m])
  {
    var b := a[k..] + a[..k];
    if k + m <= |a| {
      assert b[m..] == a[k + m..] + a[..k];
      assert b[..m] == a[k..k + m];
      assert a[..k + m] == a[..k] + a[k..k + m];
    } else {
      var t := k + m - |a|;
      assert b[m..] == a[t..k];
      assert b[..m] == a[k..] + a[..t];
      assert a[t..] == a[t..k] + a[k..];
    }
  }

  lemma RotationTransitive<T>(a: seq<T>, b: seq<T>, c: seq<T>)
    requires Rotation(a, b) && Rotation(b, c)
    ensures Rotation(a, c)
  {
    var k: nat :| RotatedBy(a, k, b);
    var m: nat :| RotatedBy(b, m, c);
    RotationsCompose(a, k, m);
  }

  lemma RotationSymmetric<T>(a: seq<T>, b: seq<T>)
    requires Rotation(a, b)
    ensures Rotation(b, a)
  {
    var k: nat :| RotatedBy(a, k, b);
    assert RotatedBy(b, |a| - k, a);
  }

  // ---------------------------------------------------------------- elementary cycles

  /** Distinct nodes, each a parent of the next, the last one a parent of the first. */
  ghost predicate ElementaryCycle(edges: Edges, c: seq<Node>) {
    IsWalk(edges, c) && Distinct(c) && (c[|c| - 1], c[0]) in edges
  }

  ghost predicate SimplePath(edges: Edges, p: seq<Node>) {
    IsWalk(edges, p) && Distinct(p)
  }

  lemma CycleRotates(edges: Edges, c: seq<Node>, k: nat)
    requires ElementaryCycle(edges, c) && k < |c|
    ensures ElementaryCycle(edges, c[k..] + c[..k])
  {
    var r := c[k..] + c[..k];
    forall i | 0 <= i < |r| - 1
      ensures (r[i], r[i + 1]) in edges
    {
      if i + k + 1 < |c| {
        assert r[i] == c[i + k] && r[i + 1] == c[i + k + 1];
      } else if i + k + 1 == |c| {
        assert r[i] == c[|c| - 1] && r[i + 1] == c[0];
      } else {
        assert r[i] == c[i + k - |c|] && r[i + 1] == c[i + k + 1 - |c|];
      }
    }
  }

  /** A graph has a closed walk exactly when it has an elementary cycle. */
  lemma CyclicIffElementary(edges: Edges)
    ensures Cyclic(edges) <==> exists c :: ElementaryCycle(edges, c)
  {
    if Cyclic(edges) {
      var x :| OnCycle(edges, x);
      var w :| ClosedWalk(edges, w, x);
      var c := ShortenClosedWalk(edges, w, x);
    }
    if c :| ElementaryCycle(edges, c) {
      assert ClosedWalk(edges, c + [c[0]], c[0]);
      assert OnCycle(edges, c[0]);
    }
  }

  lemma {:induction false} ShortenClosedWalk(edges: Edges, w: seq<Node>, x: Node) returns (c: seq<Node>)
    requires ClosedWalk(edges, w, x)
    ensures ElementaryCycle(edges, c)
    decreases |w|
  {
    var open := w[..|w| - 1];
    if Distinct(open) {
      CutWalk(edges, w, 0, |w| - 1);
      c := open;
    } else {
      var i, j :| 0 <= i < j < |open| && open[i] == open[j];
      CutWalk(edges, w, i, j + 1);
      c := ShortenClosedWalk(edges, w[i..j + 1], w[i]);
    }
  }

  /** A walk can be made simple without leaving its nodes. */
  lemma {:induction false} SimplifyWalk(edges: Edges, w: seq<Node>, from: Node, to: Node) returns (p: seq<Node>)
    requires WalkBetween(edges, w, from, to)
    ensures WalkBetween(edges, p, from, to) && Distinct(p)
    ensures forall x :: x in p ==> x in w
    decreases |w|
  {
    if Distinct(w) {
      p := w;
    } else {
      var i, j :| 0 <= i < j < |w| && w[i] == w[j];
      CutWalk(edges, w, 0, i + 1);
      CutWalk(edges, w, j, |w|);
      WalkConcat(edges, w[0..i + 1], w[j..|w|]);
      var shorter := w[0..i + 1] + w[j..|w|][1..];
      assert shorter == w[..i + 1] + w[j + 1..];
      p := SimplifyWalk(edges, shorter, from, to);
    }
  }

  /** From a node that reaches a cycle, some simple path meets the cycle at its last node only. */
  lemma ApproachCycle(edges: Edges, root: Node, c: seq<Node>) returns (p: seq<Node>, m: nat)
    requires ElementaryCycle(edges, c) && Reaches(edges, root, c[0])
    ensures m < |c| && WalkBetween(edges, p, root, c[m]) && Distinct(p)
    ensures forall i :: 0 <= i < |p| - 1 ==> p[i] !in c
  {
    var w :| WalkBetween(edges, w, root, c[0]);
    assert w[|w| - 1] in c;
    var first := FirstIn(w, c);
    m :| 0 <= m < |c| && c[m] == w[first];
    CutWalk(edges, w, 0, first + 1);
    var head := w[0..first + 1];
    p := SimplifyWalk(edges, head, root, c[m]);
    forall i | 0 <= i < |p| - 1
      ensures p[i] !in c
    {
      assert p[i] in head;
      assert p[i] != p[|p| - 1];
      var k :| 0 <= k <= first && head[k] == p[i];
    }
  }

  lemma {:induction false} FirstIn(w: seq<Node>, c: seq<Node>) returns (first: nat)
    requires w != [] && w[|w| - 1] in c
    ensures first < |w| && w[first] in c
    ensures forall k :: 0 <= k < first ==> w[k] !in c
  {
    if w[0] in c {
      first := 0;
    } else {
      assert w[|w| - 1] == w[1..][|w| - 2];
      var rest := FirstIn(w[1..], c);
      first := rest + 1;
      assert forall k :: 1 <= k < first ==> w[k] == w[1..][k - 1];
    }
  }

  /** Walking the approach and then once round the cycle is still a simple path. */
  lemma RoundTheCycle(edges: Edges, p: seq<Node>, c: seq<Node>)
    requires IsWalk(edges, p) && Distinct(p) && ElementaryCycle(edges, c)
    requires p[|p| - 1] == c[0] && forall i :: 0 <= i < |p| - 1 ==> p[i] !in c
    ensures var q := p + c[1..];
            SimplePath(edges, q) && (q[|q| - 1], q[|p| - 1]) in edges && q[|p| - 1..] == c
  {
    var q := p + c[1..];
    WalkConcat(edges, p, c);
    assert Distinct(c[1..]);
    forall x | x in p
      ensures x !in c[1..]
    {
      assert c == [c[0]] + c[1..];
      if x == c[0] {
        assert forall k :: 0 <= k < |c[1..]| ==> c[1..][k] == c[k + 1] != c[0];
      }
    }
    DistinctConcat(p, c[1..]);
    assert q[|q| - 1] == c[|c| - 1] && q[|p| - 1] == c[0];
    assert q[|p| - 1..] == c;
  }
}
