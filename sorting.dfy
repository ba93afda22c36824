/** Python's `sorted(xs, key=k, reverse=True)`: a stable sort into
    non-increasing key order, in which records with equal keys keep the
    order they had in `xs`. */
module Sorting {
  import opened StringOrder

  /** Every later element's key is at most every earlier element's key. */
  ghost predicate NonIncreasing<T>(s: seq<T>, key: T -> SortKey)
  {
    forall i, j :: 0 <= i < j < |s| ==> KeyAtMost(key(s[j]), key(s[i]))
  }

  /** The elements of `s` whose key is `k`, in their order in `s`. */
  function WithKey<T>(s: seq<T>, key: T -> SortKey, k: SortKey): seq<T>
  {
    if s == [] then []
    else (if key(s[0]) == k then [s[0]] else []) + WithKey(s[1..], key, k)
  }

  /** Places `x` in front of the first element whose key is not greater than
      its own, so `x` comes before every element with an equal key. */
  function Insert<T>(x: T, s: seq<T>, key: T -> SortKey): (r: seq<T>)
    requires NonIncreasing(s, key)
    ensures |r| == |s| + 1
    ensures multiset(r) == multiset(s) + multiset{x}
    ensures NonIncreasing(r, key)
  {
    if s == [] then [x]
    else if KeyAtMost(key(s[0]), key(x)) then
      InsertInFront(x, s, key);
      [x] + s
    else
      var rest := Insert(x, s[1..], key);
      InsertBehind(x, s, rest, key);
      [s[0]] + rest
  }

  lemma InsertInFront<T>(x: T, s: seq<T>, key: T -> SortKey)
    requires NonIncreasing(s, key)
    requires s != [] && KeyAtMost(key(s[0]), key(x))
    ensures NonIncreasing([x] + s, key)
  {
    forall j | 0 <= j < |s| ensures KeyAtMost(key(s[j]), key(x)) {
      if j > 0 { KeyAtMostTransitive(key(s[j]), key(s[0]), key(x)); }
    }
    assert forall j :: 1 <= j <= |s| ==> ([x] + s)[j] == s[j - 1];
  }

  lemma InsertBehind<T>(x: T, s: seq<T>, rest: seq<T>, key: T -> SortKey)
    requires NonIncreasing(s, key) && NonIncreasing(rest, key)
    requires s != [] && !KeyAtMost(key(s[0]), key(x))
    requires multiset(rest) == multiset(s[1..]) + multiset{x}
    ensures NonIncreasing([s[0]] + rest, key)
    ensures multiset([s[0]] + rest) == multiset(s) + multiset{x}
  {
    KeyTrichotomy(key(s[0]), key(x));
    forall j | 0 <= j < |rest| ensures KeyAtMost(key(rest[j]), key(s[0])) {
      assert rest[j] in multiset(rest);
      if rest[j] != x {
        assert rest[j] in multiset(s[1..]);
      }
    }
    assert forall j :: 1 <= j <= |rest| ==> ([s[0]] + rest)[j] == rest[j - 1];
    assert s == [s[0]] + s[1..];
  }

  /** Insertion sort from the back, so that earlier elements end up in front
      of later elements with equal keys. */
  function SortDescending<T>(s: seq<T>, key: T -> SortKey): (r: seq<T>)
    ensures |r| == |s|
    ensures multiset(r) == multiset(s)
    ensures NonIncreasing(r, key)
  {
    if s == [] then []
    else
      assert s == [s[0]] + s[1..];
      Insert(s[0], SortDescending(s[1..], key), key)
  }

  lemma {:induction false} WithKeyInsert<T>(x: T, s: seq<T>, key: T -> SortKey, k: SortKey)
    requires NonIncreasing(s, key)
    ensures WithKey(Insert(x, s, key), key, k)
            == (if key(x) == k then [x] else []) + WithKey(s, key, k)
  {
    var own := if key(x) == k then [x] else [];
    if s == [] {
      assert Insert(x, s, key) == [x];
    } else if KeyAtMost(key(s[0]), key(x)) {
      assert Insert(x, s, key) == [x] + s;
      assert ([x] + s)[1..] == s;
    } else {
      var rest := Insert(x, s[1..], key);
      assert Insert(x, s, key) == [s[0]] + rest;
      assert ([s[0]] + rest)[1..] == rest;
      var first := if key(s[0]) == k then [s[0]] else [];
      assert WithKey([s[0]] + rest, key, k) == first + WithKey(rest, key, k);
      WithKeyInsert(x, s[1..], key, k);
      assert WithKey(rest, key, k) == own + WithKey(s[1..], key, k);
      assert first == [] || own == [];
      assert WithKey(s, key, k) == first + WithKey(s[1..], key, k);
    }
  }

  /** Stability: for every key, the records with that key appear in the
      output in the same order as in the input. */
  lemma {:induction false} SortDescendingStable<T>(s: seq<T>, key: T -> SortKey, k: SortKey)
    ensures WithKey(SortDescending(s, key), key, k) == WithKey(s, key, k)
  {
    if s != [] {
      SortDescendingStable(s[1..], key, k);
      WithKeyInsert(s[0], SortDescending(s[1..], key), key, k);
    }
  }

  lemma {:induction false} WithKeyAppend<T>(a: seq<T>, b: seq<T>, key: T -> SortKey, k: SortKey)
    ensures WithKey(a + b, key, k) == WithKey(a, key, k) + WithKey(b, key, k)
  {
    if a == [] {
      assert a + b == b;
    } else {
      assert (a + b)[1..] == a[1..] + b;
      WithKeyAppend(a[1..], b, key, k);
    }
  }
}
