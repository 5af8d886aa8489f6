/** `sort.Slice` on an integer key, and why its instability does no harm when
    the keys differ. */
module Sorting {
  import opened Seqs

  predicate SortedBy<T>(s: seq<T>, key: T -> int) {
    forall i, j :: 0 <= i < j < |s| ==> key(s[i]) <= key(s[j])
  }

  predicate DistinctKeys<T>(s: seq<T>, key: T -> int) {
    forall i, j :: 0 <= i < j < |s| ==> key(s[i]) != key(s[j])
  }

  lemma SortedCons<T>(x: T, s: seq<T>, key: T -> int)
    requires SortedBy(s, key)
    requires s != [] ==> key(x) <= key(s[0])
    ensures SortedBy([x] + s, key)
  {
    var r := [x] + s;
    forall i, j | 0 <= i < j < |r|
      ensures key(r[i]) <= key(r[j])
    {
      assert r[j] == s[j - 1];
      assert i > 0 ==> r[i] == s[i - 1];
      assert key(s[0]) <= key(s[j - 1]);
    }
  }

  lemma SortedTail<T>(s: seq<T>, key: T -> int)
    requires SortedBy(s, key) && s != []
    ensures SortedBy(s[1..], key)
    ensures |s| > 1 ==> key(s[0]) <= key(s[1..][0])
  {
    var r := s[1..];
    forall i, j | 0 <= i < j < |r|
      ensures key(r[i]) <= key(r[j])
    {
      assert r[i] == s[i + 1] && r[j] == s[j + 1];
    }
  }

  function Insert<T>(x: T, s: seq<T>, key: T -> int): (r: seq<T>)
    requires SortedBy(s, key)
    ensures SortedBy(r, key)
    ensures r != [] && (r[0] == x || (s != [] && r[0] == s[0]))
    ensures multiset(r) == multiset(s) + multiset{x}
  {
    if s == [] then [x]
    else if key(x) <= key(s[0]) then
      SortedCons(x, s, key);
      [x] + s
    else
      SortedTail(s, key);
      Cons(s);
      var r := Insert(x, s[1..], key);
      SortedCons(s[0], r, key);
      [s[0]] + r
  }

  /** One sorted permutation: the reference for "ascending by key". */
  function Ascending<T>(s: seq<T>, key: T -> int): (r: seq<T>)
    ensures multiset(r) == multiset(s)
    ensures SortedBy(r, key)
  {
    if s == [] then []
    else
      Cons(s);
      Insert(s[0], Ascending(s[1..], key), key)
  }

  /** `sort.Slice`: a sorted permutation. The contract says no more, because the
      library sort is unstable: which one it is stays open. */
  method SortSlice<T>(s: seq<T>, key: T -> int) returns (r: seq<T>)
    ensures SortedBy(r, key)
    ensures multiset(r) == multiset(s)
  {
    r := [];
    for i := 0 to |s|
      invariant SortedBy(r, key)
      invariant multiset(r) == multiset(s[..i])
    {
      r := Insert(s[i], r, key);
      TakeSnoc(s, i);
    }
    TakeAll(s);
  }

  lemma SameHeads<T>(a: seq<T>, b: seq<T>, key: T -> int)
    requires SortedBy(a, key) && SortedBy(b, key)
    requires multiset(a) == multiset(b)
    requires DistinctKeys(a, key) && a != []
    ensures b != [] && a[0] == b[0]
  {
    SameElements(a, b, 0);
    SameElements(b, a, 0);
    var j :| 0 <= j < |b| && b[j] == a[0];
    var i :| 0 <= i < |a| && a[i] == b[0];
    assert key(b[0]) <= key(b[j]);
    assert key(a[0]) <= key(a[i]);
  }

  lemma DistinctTail<T>(s: seq<T>, key: T -> int)
    requires DistinctKeys(s, key) && s != []
    ensures DistinctKeys(s[1..], key)
  {
    var r := s[1..];
    forall i, j | 0 <= i < j < |r|
      ensures key(r[i]) != key(r[j])
    {
      assert r[i] == s[i + 1] && r[j] == s[j + 1];
    }
  }

  lemma TailElements<T>(s: seq<T>)
    requires s != []
    ensures multiset(s[1..]) == multiset(s) - multiset{s[0]}
  {
    Cons(s);
  }

  /** With distinct keys there is exactly one sorted permutation. */
  lemma {:induction false} SortedPermutationUnique<T>(a: seq<T>, b: seq<T>, key: T -> int)
    requires SortedBy(a, key) && SortedBy(b, key)
    requires multiset(a) == multiset(b)
    requires DistinctKeys(a, key)
    ensures a == b
  {
    if a == [] {
      SameLength(a, b);
    } else {
      SameHeads(a, b, key);
      TailElements(a);
      TailElements(b);
      SortedTail(a, key);
      SortedTail(b, key);
      DistinctTail(a, key);
      SortedPermutationUnique(a[1..], b[1..], key);
      Cons(a);
      Cons(b);
    }
  }

  lemma SameElements<T>(a: seq<T>, b: seq<T>, i: nat)
    requires multiset(a) == multiset(b)
    requires i < |a|
    ensures |a| == |b|
    ensures exists j :: 0 <= j < |b| && b[j] == a[i]
  {
    assert |multiset(a)| == |a| && |multiset(b)| == |b|;
    assert a[i] in multiset(b);
  }

  lemma SameLength<T>(a: seq<T>, b: seq<T>)
    requires multiset(a) == multiset(b)
    ensures |a| == |b|
  {
    assert |multiset(a)| == |a| && |multiset(b)| == |b|;
  }

  lemma WithoutOne<T>(b: seq<T>, j: nat)
    requires j < |b|
    ensures multiset(b[..j] + b[j + 1..]) == multiset(b) - multiset{b[j]}
  {
    var front, back := b[..j], b[j + 1..];
    assert b == front + [b[j]] + back;
    assert multiset(b) == multiset(front) + multiset{b[j]} + multiset(back);
  }

  /** Two places of `b` correspond to two places of any permutation `a`. */
  lemma TwoPlaces<T>(a: seq<T>, b: seq<T>, p: nat, q: nat) returns (i: nat, k: nat)
    requires multiset(a) == multiset(b)
    requires p < q < |b|
    ensures i < |a| && k < |a| && i != k
    ensures a[i] == b[p] && a[k] == b[q]
  {
    SameElements(b, a, p);
    i :| 0 <= i < |a| && a[i] == b[p];
    WithoutOne(b, p);
    WithoutOne(a, i);
    var restA, restB := a[..i] + a[i + 1..], b[..p] + b[p + 1..];
    assert restB[q - 1] == b[q];
    SameElements(restB, restA, q - 1);
    var j :| 0 <= j < |restA| && restA[j] == b[q];
    k := if j < i then j else j + 1;
  }

  lemma DistinctKeysPermuted<T>(a: seq<T>, b: seq<T>, key: T -> int)
    requires multiset(a) == multiset(b)
    requires DistinctKeys(a, key)
    ensures DistinctKeys(b, key)
  {
    forall p, q | 0 <= p < q < |b|
      ensures key(b[p]) != key(b[q])
    {
      var i, k := TwoPlaces(a, b, p, q);
    }
  }

  /** Whatever `SortSlice` does, it lands on `Ascending` when keys differ, and
      `Ascending` does not depend on the order it was given. */
  lemma AscendingOfPermutation<T>(a: seq<T>, b: seq<T>, key: T -> int)
    requires multiset(a) == multiset(b)
    requires DistinctKeys(a, key)
    ensures DistinctKeys(b, key)
    ensures Ascending(a, key) == Ascending(b, key)
    ensures DistinctKeys(Ascending(a, key), key)
  {
    DistinctKeysPermuted(a, b, key);
    DistinctKeysPermuted(a, Ascending(a, key), key);
    SortedPermutationUnique(Ascending(a, key), Ascending(b, key), key);
  }

  lemma SortSliceDetermined<T>(s: seq<T>, r: seq<T>, key: T -> int)
    requires DistinctKeys(s, key)
    requires SortedBy(r, key) && multiset(r) == multiset(s)
    ensures r == Ascending(s, key)
  {
    DistinctKeysPermuted(s, r, key);
    SortedPermutationUnique(r, Ascending(s, key), key);
  }

  // ---- sequences with distinct keys are sets ------------------------------------

  lemma {:induction false} Once<T>(s: seq<T>, x: T, key: T -> int)
    requires DistinctKeys(s, key)
    ensures multiset(s)[x] == if x in s then 1 else 0
  {
    if s != [] {
      var n := |s| - 1;
      DistinctFront(s, key);
      Once(s[..n], x, key);
      Snoc(s);
      assert multiset(s) == multiset(s[..n]) + multiset{s[n]};
      if s[n] == x {
        assert x !in s[..n] by {
          assert forall i :: 0 <= i < n ==> key(s[..n][i]) != key(s[n]);
        }
      }
    }
  }

  lemma SameDistinct<T>(a: seq<T>, b: seq<T>, key: T -> int)
    requires DistinctKeys(a, key) && DistinctKeys(b, key)
    requires forall x :: x in a <==> x in b
    ensures multiset(a) == multiset(b)
  {
    forall x: T ensures multiset(a)[x] == multiset(b)[x] {
      Once(a, x, key);
      Once(b, x, key);
    }
  }

  lemma SamePlace<T>(s: seq<T>, i: nat, j: nat, key: T -> int)
    requires DistinctKeys(s, key) && i < |s| && j < |s|
    ensures key(s[i]) == key(s[j]) ==> i == j
  {
  }

  lemma SameKeySame<T>(s: seq<T>, a: T, b: T, key: T -> int)
    requires DistinctKeys(s, key) && a in s && b in s && key(a) == key(b)
    ensures a == b
  {
    var i :| 0 <= i < |s| && s[i] == a;
    var j :| 0 <= j < |s| && s[j] == b;
    SamePlace(s, i, j, key);
  }

  // ---- filtering while mapping ----------------------------------------------

  /** Keeps what `f` accepts, in order. */
  function Collect<A, B>(s: seq<A>, f: A -> seq<B>): seq<B> {
    if s == [] then [] else Collect(s[..|s| - 1], f) + f(s[|s| - 1])
  }

  lemma CollectSnoc<A, B>(s: seq<A>, x: A, f: A -> seq<B>)
    ensures Collect(s + [x], f) == Collect(s, f) + f(x)
  {
    SnocParts(s, x);
  }

  lemma {:induction false} CollectAppend<A, B>(a: seq<A>, b: seq<A>, f: A -> seq<B>)
    ensures Collect(a + b, f) == Collect(a, f) + Collect(b, f)
  {
    if b == [] {
      AppendEmpty(a);
    } else {
      var front, last := b[..|b| - 1], b[|b| - 1];
      CollectAppend(a, front, f);
      AppendFront(a, b);
      Associate(Collect(a, f), Collect(front, f), f(last));
    }
  }

  predicate All<T>(s: seq<T>, p: T -> bool) {
    forall i :: 0 <= i < |s| ==> p(s[i])
  }

  lemma AllLast<T>(s: seq<T>, p: T -> bool)
    requires s != []
    ensures All(s, p) <==> All(s[..|s| - 1], p) && p(s[|s| - 1])
  {
    var n := |s| - 1;
    assert forall i :: 0 <= i < n ==> s[..n][i] == s[i];
  }

  /** What holds of all that is kept of each element holds of all that is collected. */
  lemma {:induction false} CollectAll<A, B>(s: seq<A>, f: A -> seq<B>, p: B -> bool)
    requires forall i :: 0 <= i < |s| ==> All(f(s[i]), p)
    ensures All(Collect(s, f), p)
  {
    if s != [] {
      var front := s[..|s| - 1];
      assert forall i :: 0 <= i < |front| ==> front[i] == s[i];
      CollectAll(front, f, p);
    }
  }

  /** What is collected does not depend on the order of the input. */
  lemma {:induction false} CollectPermuted<A, B>(a: seq<A>, b: seq<A>, f: A -> seq<B>)
    requires multiset(a) == multiset(b)
    ensures multiset(Collect(a, f)) == multiset(Collect(b, f))
  {
    if a == [] {
      SameLength(a, b);
    } else {
      var n := |a| - 1;
      SameElements(a, b, n);
      var j :| 0 <= j < |b| && b[j] == a[n];
      WithoutOne(b, j);
      FrontElements(a);
      CollectPermuted(a[..n], b[..j] + b[j + 1..], f);
      CollectAround(b, j, f);
    }
  }

  lemma FrontElements<T>(s: seq<T>)
    requires s != []
    ensures multiset(s[..|s| - 1]) == multiset(s) - multiset{s[|s| - 1]}
  {
    Snoc(s);
  }

  /** Taking one element out takes out what it contributed. */
  lemma CollectAround<A, B>(b: seq<A>, j: nat, f: A -> seq<B>)
    requires j < |b|
    ensures multiset(Collect(b, f)) == multiset(Collect(b[..j] + b[j + 1..], f)) + multiset(f(b[j]))
  {
    var front, back := b[..j], b[j + 1..];
    assert b == front + ([b[j]] + back);
    CollectAppend(front, [b[j]] + back, f);
    CollectAppend([b[j]], back, f);
    CollectAppend(front, back, f);
    CollectOne(b[j], f);
  }

  lemma {:induction false} CollectNothing<A, B>(s: seq<A>, f: A -> seq<B>)
    requires forall i :: 0 <= i < |s| ==> f(s[i]) == []
    ensures Collect(s, f) == []
  {
    if s != [] {
      CollectNothing(s[..|s| - 1], f);
    }
  }

  lemma {:induction false} CollectOneEach<A, B>(s: seq<A>, r: seq<B>, f: A -> seq<B>)
    requires |s| == |r|
    requires forall i :: 0 <= i < |s| ==> f(s[i]) == [r[i]]
    ensures Collect(s, f) == r
  {
    if s != [] {
      CollectOneEach(s[..|s| - 1], r[..|r| - 1], f);
      Snoc(r);
    }
  }

  lemma CollectOne<A, B>(x: A, f: A -> seq<B>)
    ensures Collect([x], f) == f(x)
  {
    assert [x][..0] == [];
  }

  // ---- tables by key ---------------------------------------------------------

  /** The table of values by key; a later element wins. */
  function Table<T, V>(s: seq<T>, key: T -> int, val: T -> V): map<int, V> {
    if s == [] then map[]
    else Table(s[..|s| - 1], key, val)[key(s[|s| - 1]) := val(s[|s| - 1])]
  }

  lemma TableSnoc<T, V>(s: seq<T>, x: T, key: T -> int, val: T -> V)
    ensures Table(s + [x], key, val) == Table(s, key, val)[key(x) := val(x)]
  {
    SnocParts(s, x);
  }

  predicate HasKey<T>(s: seq<T>, key: T -> int, n: int) {
    exists i :: 0 <= i < |s| && key(s[i]) == n
  }

  lemma {:induction false} TableKeys<T, V>(s: seq<T>, key: T -> int, val: T -> V, n: int)
    ensures n in Table(s, key, val) <==> HasKey(s, key, n)
  {
    if s != [] {
      var k := |s| - 1;
      var front := s[..k];
      TableKeys(front, key, val, n);
      if HasKey(front, key, n) {
        var i :| 0 <= i < |front| && key(front[i]) == n;
        assert key(s[i]) == n;
      }
      if key(s[k]) != n && HasKey(s, key, n) {
        var i :| 0 <= i < |s| && key(s[i]) == n;
        assert key(front[i]) == n;
      }
    }
  }

  lemma {:induction false} TableValue<T, V>(s: seq<T>, key: T -> int, val: T -> V, i: nat)
    requires DistinctKeys(s, key) && i < |s|
    ensures key(s[i]) in Table(s, key, val) && Table(s, key, val)[key(s[i])] == val(s[i])
  {
    var k := |s| - 1;
    if i < k {
      var front := s[..k];
      assert front[i] == s[i] && key(s[i]) != key(s[k]);
      DistinctFront(s, key);
      TableValue(front, key, val, i);
    }
  }

  lemma DistinctFront<T>(s: seq<T>, key: T -> int)
    requires DistinctKeys(s, key) && s != []
    ensures DistinctKeys(s[..|s| - 1], key)
  {
    var r := s[..|s| - 1];
    forall i, j | 0 <= i < j < |r|
      ensures key(r[i]) != key(r[j])
    {
      assert r[i] == s[i] && r[j] == s[j];
    }
  }

  lemma TableIncluded<T, V>(a: seq<T>, b: seq<T>, key: T -> int, val: T -> V, n: int)
    requires multiset(a) == multiset(b)
    requires DistinctKeys(a, key) && DistinctKeys(b, key)
    requires n in Table(a, key, val)
    ensures n in Table(b, key, val) && Table(b, key, val)[n] == Table(a, key, val)[n]
  {
    TableKeys(a, key, val, n);
    var i :| 0 <= i < |a| && key(a[i]) == n;
    SameElements(a, b, i);
    var j :| 0 <= j < |b| && b[j] == a[i];
    TableValue(a, key, val, i);
    TableValue(b, key, val, j);
  }

  lemma TablePermuted<T, V>(a: seq<T>, b: seq<T>, key: T -> int, val: T -> V)
    requires multiset(a) == multiset(b)
    requires DistinctKeys(a, key)
    ensures Table(a, key, val) == Table(b, key, val)
  {
    DistinctKeysPermuted(a, b, key);
    var ta, tb := Table(a, key, val), Table(b, key, val);
    forall n | n in ta ensures n in tb && tb[n] == ta[n] {
      TableIncluded(a, b, key, val, n);
    }
    forall n | n in tb ensures n in ta {
      TableIncluded(b, a, key, val, n);
    }
  }
}
