/**
 Sequences without repeats, and what the other modules need to know of sequences in general.
 */
module Sequences {

  datatype Option<+T> = None | Some(value: T) {
    predicate IsFailure() { None? }

    function PropagateFailure<U>(): Option<U>
      requires None?
    {
      None
    }

    function Extract(): T
      requires Some?
    {
      value
    }
  }

  ghost predicate Distinct<T(!new)>(s: seq<T>) {
    forall i, j :: 0 <= i < j < |s| ==> s[i] != s[j]
  }

  function Elements<T>(s: seq<T>): set<T> {
    set x | x in s
  }

  /** A sequence without repeats is as long as its set of elements is large. */
  lemma {:induction false} DistinctCardinality<T(!new)>(s: seq<T>)
    requires Distinct(s)
    ensures |Elements(s)| == |s|
  {
    if s != [] {
      var front, last := s[..|s| - 1], s[|s| - 1];
      DistinctCardinality(front);
      assert s == front + [last];
      assert last !in front;
      assert Elements(s) == Elements(front) + {last};
    }
  }

  lemma {:induction false} SubsetCardinality<T>(a: set<T>, b: set<T>)
    requires a <= b
    ensures |a| <= |b|
    ensures |a| == |b| ==> a == b
    decreases |b|
  {
    if b == {} {
    } else if a == b {
    } else {
      var x :| x in b && x !in a;
      SubsetCardinality(a, b - {x});
    }
  }

  /** A sequence without repeats, drawn from a finite set, is no longer than that set. */
  lemma DistinctBound<T(!new)>(s: seq<T>, universe: set<T>)
    requires Distinct(s)
    requires forall x :: x in s ==> x in universe
    ensures |s| <= |universe|
  {
    DistinctCardinality(s);
    SubsetCardinality(Elements(s), universe);
  }

  lemma DistinctConcat<T(!new)>(a: seq<T>, b: seq<T>)
    requires Distinct(a) && Distinct(b) && forall x :: x in a ==> x !in b
    ensures Distinct(a + b)
  {
    var s := a + b;
    forall i, j | 0 <= i < j < |s|
      ensures s[i] != s[j]
    {
      if i < |a| <= j {
        assert s[i] in a && s[j] in b;
      }
    }
  }

  lemma PrefixStep<T>(s: seq<T>, i: nat)
    requires i < |s|
    ensures s[..i + 1] == s[..i] + [s[i]]
  {
  }

  lemma WholePrefix<T>(s: seq<T>)
    ensures s[..|s|] == s
  {
  }

  lemma LastOf<T>(s: seq<T>)
    requires s != []
    ensures s[..|s| - 1] + [s[|s| - 1]] == s
  {
  }

  lemma FirstOf<T>(s: seq<T>, i: nat)
    requires i < |s|
    ensures s[i..] == [s[i]] + s[i + 1..]
  {
  }

  /** Where a sequence has members of a kind. */
  function Positions<T>(s: seq<T>, kind: T -> bool): set<nat> {
    set i: nat | i < |s| && kind(s[i])
  }

  lemma PositionsAppend<T>(s: seq<T>, x: T, kind: T -> bool)
    ensures |Positions(s + [x], kind)| == |Positions(s, kind)| + if kind(x) then 1 else 0
  {
    assert forall i: nat :: i < |s| ==> (s + [x])[i] == s[i];
    if kind(x) {
      assert Positions(s + [x], kind) == Positions(s, kind) + {|s|};
    } else {
      assert Positions(s + [x], kind) == Positions(s, kind);
    }
  }

  lemma {:induction false} PositionsFirst<T>(s: seq<T>, kind: T -> bool)
    requires s != []
    ensures |Positions(s, kind)| == (if kind(s[0]) then 1 else 0) + |Positions(s[1..], kind)|
    decreases |s|
  {
    var front, last := s[..|s| - 1], s[|s| - 1];
    assert s == front + [last];
    PositionsAppend(front, last, kind);
    if front == [] {
      assert Positions(front, kind) == {} && Positions(s[1..], kind) == {};
    } else {
      PositionsFirst(front, kind);
      PositionsAppend(front[1..], last, kind);
      assert s[1..] == front[1..] + [last];
    }
  }

  lemma MultisetConcat<T>(a: seq<T>, b: seq<T>, x: T)
    ensures multiset(a + b)[x] == multiset(a)[x] + multiset(b)[x]
  {
  }

  /** Concatenation is associative. */
  lemma Regroup<T>(a: seq<T>, b: seq<T>, c: seq<T>)
    ensures (a + b) + c == a + (b + c)
  {
  }
}
