/**
 bindings/python/rad_util.py, `permutations`: the first item is inserted at every position of every
 permutation of the rest.
 */
module Permutations {
  import opened Sequences

  function Insert<T>(list: seq<T>, i: nat, x: T): seq<T>
    requires i <= |list|
  {
    list[..i] + [x] + list[i..]
  }

  /** The item at each of the first n positions. */
  function Insertions<T>(list: seq<T>, x: T, n: nat): seq<seq<T>>
    requires n <= |list| + 1
  {
    if n == 0 then [] else Insertions(list, x, n - 1) + [Insert(list, n - 1, x)]
  }

  function InsertedIn<T>(lists: seq<seq<T>>, x: T): seq<seq<T>> {
    if lists == [] then []
    else
      var last := lists[|lists| - 1];
      InsertedIn(lists[..|lists| - 1], x) + Insertions(last, x, |last| + 1)
  }

  function Perms<T>(items: seq<T>): seq<seq<T>> {
    if |items| <= 1 then [items] else InsertedIn(Perms(items[1..]), items[0])
  }

  // ---------------------------------------------------------------- which lists occur

  lemma InsertAddsOne<T>(list: seq<T>, i: nat, x: T)
    requires i <= |list|
    ensures multiset(Insert(list, i, x)) == multiset(list) + multiset{x}
  {
    assert list == list[..i] + list[i..];
  }

  lemma {:induction false} InsertionsMember<T>(list: seq<T>, x: T, n: nat, p: seq<T>)
    requires n <= |list| + 1
    ensures p in Insertions(list, x, n) <==> exists i: nat :: i < n && ComesFromOne(p, list, x, i)
  {
    if n > 0 {
      InsertionsMember(list, x, n - 1, p);
      if p == Insert(list, n - 1, x) {
        assert ComesFromOne(p, list, x, n - 1);
      }
    }
  }

  predicate ComesFrom<T(==)>(p: seq<T>, lists: seq<seq<T>>, x: T, k: nat, i: nat) {
    k < |lists| && i <= |lists[k]| && p == Insert(lists[k], i, x)
  }

  lemma {:induction false} InsertedMember<T>(lists: seq<seq<T>>, x: T, p: seq<T>)
    ensures p in InsertedIn(lists, x) <==> exists k: nat, i: nat :: ComesFrom(p, lists, x, k, i)
  {
    if lists != [] {
      var n := |lists| - 1;
      InsertedMember(lists[..n], x, p);
      InsertionsMember(lists[n], x, |lists[n]| + 1, p);
      assert lists == lists[..n] + [lists[n]];
      OneListMore(lists[..n], lists[n], x, p);
    }
  }

  predicate ComesFromOne<T(==)>(p: seq<T>, list: seq<T>, x: T, i: nat) {
    i <= |list| && p == Insert(list, i, x)
  }

  lemma OneListMore<T>(front: seq<seq<T>>, last: seq<T>, x: T, p: seq<T>)
    ensures (exists k: nat, i: nat :: ComesFrom(p, front + [last], x, k, i))
         == ((exists k: nat, i: nat :: ComesFrom(p, front, x, k, i)) || (exists i: nat :: ComesFromOne(p, last, x, i)))
  {
    var lists := front + [last];
    if k: nat, i: nat :| ComesFrom(p, front, x, k, i) {
      assert ComesFrom(p, lists, x, k, i);
    }
    if i: nat :| ComesFromOne(p, last, x, i) {
      assert ComesFrom(p, lists, x, |front|, i);
    }
    if k: nat, i: nat :| ComesFrom(p, lists, x, k, i) {
      if k < |front| {
        assert ComesFrom(p, front, x, k, i);
      } else {
        assert ComesFromOne(p, last, x, i);
      }
    }
  }

  lemma RemoveAt<T>(p: seq<T>, i: nat)
    requires i < |p|
    ensures Insert(p[..i] + p[i + 1..], i, p[i]) == p
    ensures multiset(p[..i] + p[i + 1..]) + multiset{p[i]} == multiset(p)
  {
    InsertAddsOne(p[..i] + p[i + 1..], i, p[i]);
  }

  /** Every list with the same items, and no other. */
  lemma {:induction false} PermsAreAll<T>(items: seq<T>, p: seq<T>)
    ensures p in Perms(items) <==> multiset(p) == multiset(items)
    decreases |items|
  {
    if |items| <= 1 {
      SmallPermutation(items, p);
    } else {
      var x, rest := items[0], items[1..];
      InsertedMember(Perms(rest), x, p);
      if k: nat, i: nat :| ComesFrom(p, Perms(rest), x, k, i) {
        PermsAreAll(rest, Perms(rest)[k]);
        InsertAddsOne(Perms(rest)[k], i, x);
        FirstAndRest(items);
      }
      if multiset(p) == multiset(items) {
        var i, sub := WithoutFirst(items, p);
        PermsAreAll(rest, sub);
        var k: nat :| k < |Perms(rest)| && Perms(rest)[k] == sub;
        assert ComesFrom(p, Perms(rest), x, k, i);
      }
    }
  }

  lemma FirstAndRest<T>(items: seq<T>)
    requires items != []
    ensures multiset(items) == multiset(items[1..]) + multiset{items[0]}
  {
    assert items == [items[0]] + items[1..];
  }

  /** A permutation holds the first item somewhere; without it, it is a permutation of the rest. */
  lemma WithoutFirst<T>(items: seq<T>, p: seq<T>) returns (i: nat, sub: seq<T>)
    requires items != [] && multiset(p) == multiset(items)
    ensures i <= |sub| && p == Insert(sub, i, items[0]) && multiset(sub) == multiset(items[1..])
  {
    FirstAndRest(items);
    assert items[0] in multiset(p);
    i :| 0 <= i < |p| && p[i] == items[0];
    sub := p[..i] + p[i + 1..];
    RemoveAt(p, i);
    Cancel(multiset(sub), multiset(items[1..]), items[0]);
  }

  lemma Cancel<T>(a: multiset<T>, b: multiset<T>, x: T)
    requires a + multiset{x} == b + multiset{x}
    ensures a == b
  {
    assert a == (a + multiset{x}) - multiset{x};
  }

  lemma SameLength<T>(a: seq<T>, b: seq<T>)
    requires multiset(a) == multiset(b)
    ensures |a| == |b|
  {
    assert |multiset(a)| == |a| && |multiset(b)| == |b|;
  }

  lemma SmallPermutation<T>(items: seq<T>, p: seq<T>)
    requires |items| <= 1
    ensures p == items <==> multiset(p) == multiset(items)
  {
    assert |multiset(p)| == |p| && |multiset(items)| == |items|;
    if multiset(p) == multiset(items) && |items| == 1 {
      assert p[0] in multiset(p);
    }
  }

  // ---------------------------------------------------------------- how many

  function Factorial(n: nat): nat {
    if n == 0 then 1 else n * Factorial(n - 1)
  }

  lemma {:induction false} InsertionsCount<T>(list: seq<T>, x: T, n: nat)
    requires n <= |list| + 1
    ensures |Insertions(list, x, n)| == n
  {
    if n > 0 {
      InsertionsCount(list, x, n - 1);
    }
  }

  predicate AllOfLength<T>(lists: seq<seq<T>>, len: nat) {
    forall k :: 0 <= k < |lists| ==> |lists[k]| == len
  }

  /** Where the insertions in the k-th list begin, when each list has as many. */
  function Row(k: nat, width: nat): nat {
    if k == 0 then 0 else Row(k - 1, width) + width
  }

  lemma {:induction false} RowIsProduct(k: nat, width: nat)
    ensures Row(k, width) == k * width
  {
    if k > 0 {
      RowIsProduct(k - 1, width);
      assert k * width == (k - 1) * width + width;
    }
  }

  lemma {:induction false} InsertedCount<T>(lists: seq<seq<T>>, x: T, len: nat)
    requires AllOfLength(lists, len)
    ensures |InsertedIn(lists, x)| == Row(|lists|, len + 1)
  {
    if lists != [] {
      var n := |lists| - 1;
      InsertedCount(lists[..n], x, len);
      InsertionsCount(lists[n], x, len + 1);
    }
  }

  lemma PermsHaveLength<T>(items: seq<T>)
    ensures AllOfLength(Perms(items), |items|)
  {
    forall k | 0 <= k < |Perms(items)|
      ensures |Perms(items)[k]| == |items|
    {
      PermsAreAll(items, Perms(items)[k]);
      SameLength(Perms(items)[k], items);
    }
  }

  lemma {:induction false} PermsCount<T>(items: seq<T>)
    ensures |Perms(items)| == Factorial(|items|)
    decreases |items|
  {
    var n := |items|;
    if n > 1 {
      PermsCount(items[1..]);
      PermsHaveLength(items[1..]);
      InsertedCount(Perms(items[1..]), items[0], n - 1);
      RowIsProduct(Factorial(n - 1), n);
      assert Factorial(n) == n * Factorial(n - 1);
    } else if n == 1 {
      assert Factorial(1) == 1 * Factorial(0);
    }
  }

  // ---------------------------------------------------------------- when they are all different

  /** A new item tells the position and the list it was inserted in. */
  lemma InsertIsInjective<T>(a: seq<T>, i: nat, b: seq<T>, j: nat, x: T)
    requires i <= |a| && j <= |b| && x !in a && x !in b && Insert(a, i, x) == Insert(b, j, x)
    ensures i == j && a == b
  {
    var p := Insert(a, i, x);
    assert |p| == |a| + 1 == |b| + 1 && p[i] == x && p[j] == x;
    assert a == p[..i] + p[i + 1..];
    assert b == p[..j] + p[j + 1..];
  }

  lemma {:induction false} InsertionsDistinct<T(!new)>(list: seq<T>, x: T, n: nat)
    requires n <= |list| + 1 && x !in list
    ensures Distinct(Insertions(list, x, n))
  {
    if n > 0 {
      InsertionsDistinct(list, x, n - 1);
      var last := Insert(list, n - 1, x);
      InsertionsMember(list, x, n - 1, last);
      if i: nat :| i < n - 1 && ComesFromOne(last, list, x, i) {
        InsertIsInjective(list, n - 1, list, i, x);
      }
      DistinctConcat(Insertions(list, x, n - 1), [last]);
    }
  }

  lemma {:induction false} InsertedDistinct<T(!new)>(lists: seq<seq<T>>, x: T)
    requires Distinct(lists) && forall list :: list in lists ==> x !in list
    ensures Distinct(InsertedIn(lists, x))
  {
    if lists != [] {
      var n := |lists| - 1;
      var front, last := lists[..n], lists[n];
      assert last in lists;
      InsertedDistinct(front, x);
      InsertionsDistinct(last, x, |last| + 1);
      forall p
        ensures p in InsertedIn(front, x) ==> p !in Insertions(last, x, |last| + 1)
      {
        NotInBoth(front, last, x, p);
      }
      DistinctConcat(InsertedIn(front, x), Insertions(last, x, |last| + 1));
    }
  }

  lemma NotInBoth<T(!new)>(front: seq<seq<T>>, last: seq<T>, x: T, p: seq<T>)
    requires last !in front && x !in last && forall list :: list in front ==> x !in list
    ensures p in InsertedIn(front, x) ==> p !in Insertions(last, x, |last| + 1)
  {
    InsertedMember(front, x, p);
    InsertionsMember(last, x, |last| + 1, p);
    if k: nat, j: nat :| ComesFrom(p, front, x, k, j) {
      if i: nat :| ComesFromOne(p, last, x, i) {
        assert front[k] in front;
        InsertIsInjective(front[k], j, last, i, x);
      }
    }
  }

  lemma {:induction false} PermsDistinct<T(!new)>(items: seq<T>)
    requires Distinct(items)
    ensures Distinct(Perms(items))
    decreases |items|
  {
    if |items| > 1 {
      var x, rest := items[0], items[1..];
      PermsDistinct(rest);
      forall list | list in Perms(rest)
        ensures x !in list
      {
        PermsAreAll(rest, list);
        assert x in list ==> x in multiset(list);
      }
      InsertedDistinct(Perms(rest), x);
    }
  }

  /** Where each insertion stands. */
  lemma {:induction false} InsertionsAt<T>(list: seq<T>, x: T, n: nat, i: nat)
    requires i < n <= |list| + 1
    ensures |Insertions(list, x, n)| == n && Insertions(list, x, n)[i] == Insert(list, i, x)
  {
    InsertionsCount(list, x, n - 1);
    if i < n - 1 {
      InsertionsAt(list, x, n - 1, i);
    }
  }

  predicate StandsAt<T(==)>(p: seq<T>, lists: seq<seq<T>>, at: nat) {
    at < |lists| && lists[at] == p
  }

  lemma {:induction false} InsertedAt<T>(lists: seq<seq<T>>, x: T, len: nat, k: nat, i: nat, p: seq<T>)
    requires AllOfLength(lists, len) && ComesFrom(p, lists, x, k, i)
    ensures StandsAt(p, InsertedIn(lists, x), Row(k, len + 1) + i)
  {
    var n := |lists| - 1;
    InsertedCount(lists[..n], x, len);
    InsertionsAt(lists[n], x, len + 1, i);
    if k < n {
      InsertedAt(lists[..n], x, len, k, i, p);
    }
  }

  lemma TwiceInserted<T(!new)>(lists: seq<seq<T>>, x: T, len: nat, k: nat, i: nat, m: nat, j: nat, p: seq<T>)
    requires AllOfLength(lists, len) && ComesFrom(p, lists, x, k, i) && ComesFrom(p, lists, x, m, j)
    requires k <= m && (k < m || i < j)
    ensures !Distinct(InsertedIn(lists, x))
  {
    InsertedAt(lists, x, len, k, i, p);
    InsertedAt(lists, x, len, m, j, p);
    RowOrder(len + 1, k, i, m, j);
  }

  lemma {:induction false} RowOrder(width: nat, k: nat, i: nat, m: nat, j: nat)
    requires k <= m && i < width && (k < m || i < j)
    ensures Row(k, width) + i < Row(m, width) + j
    decreases m
  {
    if k < m {
      RowOrder(width, k, i, m - 1, i + 1);
    }
  }

  lemma {:induction false} PermsRepeat<T(!new)>(items: seq<T>)
    requires !Distinct(items)
    ensures !Distinct(Perms(items))
    decreases |items|
  {
    var x, rest := items[0], items[1..];
    PermsHaveLength(rest);
    if !Distinct(rest) {
      PermsRepeat(rest);
      var k: nat, m: nat :| k < m < |Perms(rest)| && Perms(rest)[k] == Perms(rest)[m];
      TwiceInserted(Perms(rest), x, |rest|, k, 0, m, 0, Insert(Perms(rest)[k], 0, x));
    } else if x in rest {
      var j: nat :| j < |rest| && rest[j] == x;
      PermsAreAll(rest, rest);
      var k: nat :| k < |Perms(rest)| && Perms(rest)[k] == rest;
      SameNeighbour(rest, j);
      TwiceInserted(Perms(rest), x, |rest|, k, j, k, j + 1, Insert(rest, j, x));
    } else {
      DistinctFromRest(items);
    }
  }

  lemma SameNeighbour<T>(list: seq<T>, j: nat)
    requires j < |list|
    ensures Insert(list, j, list[j]) == Insert(list, j + 1, list[j])
  {
    assert list[..j + 1] == list[..j] + [list[j]];
    assert list[j..] == [list[j]] + list[j + 1..];
  }

  lemma DistinctFromRest<T(!new)>(items: seq<T>)
    requires items != [] && Distinct(items[1..]) && items[0] !in items[1..]
    ensures Distinct(items)
  {
    assert items == [items[0]] + items[1..];
    DistinctConcat([items[0]], items[1..]);
  }

  /** No permutation is listed twice exactly when no item occurs twice. */
  lemma PermsDistinctIff<T(!new)>(items: seq<T>)
    ensures Distinct(Perms(items)) <==> Distinct(items)
  {
    if Distinct(items) {
      PermsDistinct(items);
    } else {
      PermsRepeat(items);
    }
  }

  // ---------------------------------------------------------------- the program

  /** The inner loop: one item at every position of one list. */
  method InsertEverywhere<T>(list: seq<T>, item: T, n: nat, before: seq<seq<T>>) returns (outLists: seq<seq<T>>)
    requires n <= |list| + 1
    ensures outLists == before + Insertions(list, item, n)
  {
    outLists := before;
    assert before + Insertions(list, item, 0) == before;
    for i := 0 to n
      invariant outLists == before + Insertions(list, item, i)
    {
      Regroup(before, Insertions(list, item, i), [Insert(list, i, item)]);
      outLists := outLists + [list[..i] + [item] + list[i..]];
    }
  }

  lemma InsertedNext<T>(lists: seq<seq<T>>, x: T, k: nat)
    requires k < |lists|
    ensures InsertedIn(lists[..k + 1], x) == InsertedIn(lists[..k], x) + Insertions(lists[k], x, |lists[k]| + 1)
  {
    assert lists[..k + 1][..k] == lists[..k];
  }

  method AllPermutations<T>(items: seq<T>) returns (outLists: seq<seq<T>>)
    ensures outLists == Perms(items)
    decreases |items|
  {
    outLists := [];
    if |items| > 1 {
      var item := items[0];
      var subLists := AllPermutations(items[1..]);
      PermsHaveLength(items[1..]);
      for k := 0 to |subLists|
        invariant outLists == InsertedIn(subLists[..k], item)
      {
        InsertedNext(subLists, item, k);
        outLists := InsertEverywhere(subLists[k], item, |items|, outLists);
      }
      assert subLists[..|subLists|] == subLists;
    } else {
      outLists := [items];
    }
  }
}
