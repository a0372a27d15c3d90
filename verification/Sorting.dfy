/** The stable sort by a key that Python's `sorted` is. */
module Sorting {

  predicate InOrder<T>(s: seq<T>, key: T -> int) {
    forall i, j :: 0 <= i < j < |s| ==> key(s[i]) <= key(s[j])
  }

  /** No two elements share a key; a matter of the elements, not of their order. */
  ghost predicate DistinctKeys<T(!new)>(m: multiset<T>, key: T -> int) {
    && (forall x :: x in m ==> m[x] == 1)
    && (forall x, y :: x in m && y in m && key(x) == key(y) ==> x == y)
  }

  function Insert<T>(x: T, s: seq<T>, key: T -> int): (r: seq<T>)
    requires InOrder(s, key)
    ensures InOrder(r, key) && multiset(r) == multiset(s) + multiset{x}
    ensures r != [] && (r[0] == x || (s != [] && r[0] == s[0]))
  {
    if s == [] || key(x) <= key(s[0]) then [x] + s
    else
      assert s == [s[0]] + s[1..];
      [s[0]] + Insert(x, s[1..], key)
  }

  function Sort<T>(s: seq<T>, key: T -> int): (r: seq<T>)
    ensures InOrder(r, key) && multiset(r) == multiset(s) && |r| == |s|
  {
    if s == [] then []
    else
      assert s == [s[0]] + s[1..];
      var r := Insert(s[0], Sort(s[1..], key), key);
      assert |r| == |multiset(r)| && |s| == |multiset(s)|;
      r
  }

  lemma InsertsFirst<T>(x: T, s: seq<T>, key: T -> int)
    requires InOrder(s, key) && (s == [] || key(x) <= key(s[0]))
    ensures Insert(x, s, key) == [x] + s
  {
  }

  /** What is in order already is left as it is. */
  lemma {:induction false} SortsNothing<T>(s: seq<T>, key: T -> int)
    requires InOrder(s, key)
    ensures Sort(s, key) == s
    decreases |s|
  {
    if s != [] {
      SortsNothing(s[1..], key);
      InsertsFirst(s[0], s[1..], key);
      assert [s[0]] + s[1..] == s;
    }
  }

  /** The elements that have this key. */
  function WithKey<T>(s: seq<T>, key: T -> int, k: int): seq<T> {
    if s == [] then [] else (if key(s[0]) == k then [s[0]] else []) + WithKey(s[1..], key, k)
  }

  lemma {:induction false} InsertKeepsGroups<T>(x: T, s: seq<T>, key: T -> int, k: int)
    requires InOrder(s, key)
    ensures WithKey(Insert(x, s, key), key, k) == WithKey([x] + s, key, k)
    decreases |s|
  {
    if s == [] || key(x) <= key(s[0]) {
      InsertsFirst(x, s, key);
    } else {
      var rest := Insert(x, s[1..], key);
      InsertKeepsGroups(x, s[1..], key, k);
      assert ([s[0]] + rest)[1..] == rest;
      assert ([x] + s)[1..] == s && ([x] + s[1..])[1..] == s[1..];
    }
  }

  /** The sort is stable: elements that share a key stay in the order they came in. */
  lemma {:induction false} SortIsStable<T>(s: seq<T>, key: T -> int, k: int)
    ensures WithKey(Sort(s, key), key, k) == WithKey(s, key, k)
    decreases |s|
  {
    if s != [] {
      var rest := Sort(s[1..], key);
      SortIsStable(s[1..], key, k);
      InsertKeepsGroups(s[0], rest, key, k);
      assert ([s[0]] + rest)[1..] == rest;
    }
  }

  lemma FirstIsLeast<T>(s: seq<T>, key: T -> int, x: T)
    requires s != [] && InOrder(s, key) && x in multiset(s)
    ensures key(s[0]) <= key(x)
  {
    var i :| 0 <= i < |s| && s[i] == x;
  }

  lemma WithoutFirst<T>(s: seq<T>)
    requires s != []
    ensures multiset(s[1..]) == multiset(s) - multiset{s[0]} && s[0] in multiset(s)
  {
    assert s == [s[0]] + s[1..];
  }

  lemma SameFirst<T(!new)>(a: seq<T>, b: seq<T>, key: T -> int)
    requires a != [] && b != [] && InOrder(a, key) && InOrder(b, key) && multiset(a) == multiset(b)
    requires DistinctKeys(multiset(a), key)
    ensures a[0] == b[0]
  {
    WithoutFirst(a);
    WithoutFirst(b);
    FirstIsLeast(a, key, b[0]);
    FirstIsLeast(b, key, a[0]);
  }

  lemma FewerStayDistinct<T(!new)>(m: multiset<T>, x: T, key: T -> int)
    requires DistinctKeys(m, key)
    ensures DistinctKeys(m - multiset{x}, key)
  {
    assert forall y :: y in m - multiset{x} ==> y in m;
  }

  lemma Associate<T>(a: seq<T>, b: seq<T>, c: seq<T>)
    ensures a + (b + c) == (a + b) + c
  {
  }

  lemma SameLength<T>(a: seq<T>, b: seq<T>)
    requires multiset(a) == multiset(b)
    ensures |a| == |b|
  {
    assert |a| == |multiset(a)| && |b| == |multiset(b)|;
  }

  lemma Rest<T(!new)>(a: seq<T>, b: seq<T>, key: T -> int)
    requires a != [] && b != [] && InOrder(a, key) && InOrder(b, key) && multiset(a) == multiset(b)
    requires DistinctKeys(multiset(a), key)
    ensures a[0] == b[0] && multiset(a[1..]) == multiset(b[1..])
    ensures InOrder(a[1..], key) && InOrder(b[1..], key) && DistinctKeys(multiset(a[1..]), key)
  {
    SameFirst(a, b, key);
    WithoutFirst(a);
    WithoutFirst(b);
    FewerStayDistinct(multiset(a), a[0], key);
  }

  lemma SameParts<T>(a: seq<T>, b: seq<T>)
    requires a != [] && b != [] && a[0] == b[0] && a[1..] == b[1..]
    ensures a == b
  {
    assert a == [a[0]] + a[1..] && b == [b[0]] + b[1..];
  }

  /** Distinct keys leave no choice of order. */
  lemma {:induction false} OnlyOneOrder<T(!new)>(a: seq<T>, b: seq<T>, key: T -> int)
    requires InOrder(a, key) && InOrder(b, key) && multiset(a) == multiset(b)
    requires DistinctKeys(multiset(a), key)
    ensures a == b
    decreases |a|
  {
    SameLength(a, b);
    if a != [] {
      Rest(a, b, key);
      OnlyOneOrder(a[1..], b[1..], key);
      SameParts(a, b);
    }
  }
}
