/**
  * A stable sort into non-increasing order of an integer key: the meaning of
  * Python's `sorted(xs, key=k, reverse=True)`, which keeps elements with equal
  * keys in their original relative order.
  *
  * `SortDesc` is an insertion sort. Its partners are the three properties that
  * characterise a stable descending sort (the result is a permutation of the
  * input, it is ordered by key, and every class of equal keys keeps its input
  * order) and a uniqueness lemma: any sequence with the last two properties IS
  * `SortDesc` of the input.
  */
module StableSort {

  /** Keys never increase from left to right. */
  predicate SortedDesc<T>(s: seq<T>, key: T -> int) {
    forall i, j :: 0 <= i < j < |s| ==> key(s[i]) >= key(s[j])
  }

  /** The elements of `s` whose key is `v`, in the order they have in `s`. */
  function WithKey<T>(s: seq<T>, key: T -> int, v: int): seq<T> {
    if s == [] then []
    else (if key(s[0]) == v then [s[0]] else []) + WithKey(s[1..], key, v)
  }

  /** Puts `x` in front of the first element whose key is not larger than its own. */
  function Insert<T>(x: T, s: seq<T>, key: T -> int): seq<T> {
    if s == [] || key(s[0]) <= key(x) then [x] + s
    else [s[0]] + Insert(x, s[1..], key)
  }

  /**
    * Inserting each element in front of the equal-keyed elements that follow
    * it in the input keeps every class of equal keys in input order.
    */
  function SortDesc<T>(s: seq<T>, key: T -> int): seq<T> {
    if s == [] then [] else Insert(s[0], SortDesc(s[1..], key), key)
  }

  lemma {:induction false} InsertPermutes<T>(x: T, s: seq<T>, key: T -> int)
    ensures multiset(Insert(x, s, key)) == multiset(s) + multiset{x}
    ensures |Insert(x, s, key)| == |s| + 1
    decreases |s|
  {
    if s == [] || key(s[0]) <= key(x) {
    } else {
      InsertPermutes(x, s[1..], key);
      assert s == [s[0]] + s[1..];
    }
  }

  lemma {:induction false} SortDescPermutes<T>(s: seq<T>, key: T -> int)
    ensures multiset(SortDesc(s, key)) == multiset(s)
    ensures |SortDesc(s, key)| == |s|
    decreases |s|
  {
    if s != [] {
      SortDescPermutes(s[1..], key);
      InsertPermutes(s[0], SortDesc(s[1..], key), key);
      assert s == [s[0]] + s[1..];
    }
  }

  /** The head of `Insert(x, s)` is `x` itself or the head of `s`. */
  lemma {:induction false} InsertHead<T>(x: T, s: seq<T>, key: T -> int)
    ensures Insert(x, s, key) != []
    ensures Insert(x, s, key)[0] == x || (s != [] && Insert(x, s, key)[0] == s[0])
  {
  }

  lemma {:induction false} InsertSorted<T>(x: T, s: seq<T>, key: T -> int)
    requires SortedDesc(s, key)
    ensures SortedDesc(Insert(x, s, key), key)
    decreases |s|
  {
    if s == [] || key(s[0]) <= key(x) {
    } else {
      var rest := Insert(x, s[1..], key);
      InsertSorted(x, s[1..], key);
      InsertHead(x, s[1..], key);
      assert key(rest[0]) <= key(s[0]);
      forall i, j | 0 <= i < j < |[s[0]] + rest|
        ensures key(([s[0]] + rest)[i]) >= key(([s[0]] + rest)[j])
      {
        if i > 0 {
          assert ([s[0]] + rest)[i] == rest[i - 1];
        } else if j > 1 {
          assert key(rest[0]) >= key(rest[j - 1]);
        }
      }
    }
  }

  lemma {:induction false} SortDescOrdered<T>(s: seq<T>, key: T -> int)
    ensures SortedDesc(SortDesc(s, key), key)
    decreases |s|
  {
    if s != [] {
      SortDescOrdered(s[1..], key);
      InsertSorted(s[0], SortDesc(s[1..], key), key);
    }
  }

  lemma {:induction false} WithKeyAppend<T>(a: seq<T>, b: seq<T>, key: T -> int, v: int)
    ensures WithKey(a + b, key, v) == WithKey(a, key, v) + WithKey(b, key, v)
    decreases |a|
  {
    if a == [] {
      assert a + b == b;
    } else {
      WithKeyAppend(a[1..], b, key, v);
      assert (a + b)[1..] == a[1..] + b;
    }
  }

  /** `x` lands in its key class ahead of every element of `s`. */
  lemma {:induction false} InsertWithKey<T>(x: T, s: seq<T>, key: T -> int, v: int)
    ensures WithKey(Insert(x, s, key), key, v)
         == (if key(x) == v then [x] else []) + WithKey(s, key, v)
    decreases |s|
  {
    if s == [] || key(s[0]) <= key(x) {
      WithKeyAppend([x], s, key, v);
    } else {
      var rest := Insert(x, s[1..], key);
      InsertWithKey(x, s[1..], key, v);
      WithKeyAppend([s[0]], rest, key, v);
      assert ([s[0]] + rest)[1..] == rest;
    }
  }

  /** Stability: for every key, the elements with that key keep their input order. */
  lemma {:induction false} SortDescStable<T>(s: seq<T>, key: T -> int)
    ensures forall v :: WithKey(SortDesc(s, key), key, v) == WithKey(s, key, v)
    decreases |s|
  {
    if s != [] {
      forall v ensures WithKey(SortDesc(s, key), key, v) == WithKey(s, key, v) {
        SortDescStableAt(s, key, v);
      }
    }
  }

  lemma {:induction false} SortDescStableAt<T>(s: seq<T>, key: T -> int, v: int)
    ensures WithKey(SortDesc(s, key), key, v) == WithKey(s, key, v)
    decreases |s|
  {
    if s != [] {
      SortDescStableAt(s[1..], key, v);
      InsertWithKey(s[0], SortDesc(s[1..], key), key, v);
    }
  }

  /** In an ordered sequence, a key that occurs is no larger than the first key. */
  lemma {:induction false} OccursBelowHead<T>(s: seq<T>, key: T -> int, v: int)
    requires SortedDesc(s, key)
    requires WithKey(s, key, v) != []
    ensures s != [] && v <= key(s[0])
    decreases |s|
  {
    if key(s[0]) != v {
      OccursBelowHead(s[1..], key, v);
    }
  }

  /** A non-empty sequence has a non-empty class for its first key. */
  lemma HeadHasClass<T>(s: seq<T>, key: T -> int)
    ensures s != [] ==> WithKey(s, key, key(s[0])) != []
  {
  }

  /**
    * Two ordered sequences whose key classes agree element for element are
    * equal: ordering and stability leave a stable sort no freedom.
    */
  lemma {:induction false} SameClassesEqual<T>(a: seq<T>, b: seq<T>, key: T -> int)
    requires SortedDesc(a, key) && SortedDesc(b, key)
    requires forall v :: WithKey(a, key, v) == WithKey(b, key, v)
    ensures a == b
    decreases |a|
  {
    HeadHasClass(a, key);
    HeadHasClass(b, key);
    if a != [] && b != [] {
      var m := key(a[0]);
      assert WithKey(a, key, m) != [];
      OccursBelowHead(b, key, m);
      assert WithKey(b, key, key(b[0])) != [];
      OccursBelowHead(a, key, key(b[0]));
      assert key(b[0]) == m;
      assert WithKey(a, key, m) == [a[0]] + WithKey(a[1..], key, m);
      assert WithKey(b, key, m) == [b[0]] + WithKey(b[1..], key, m);
      assert a[0] == WithKey(a, key, m)[0] == WithKey(b, key, m)[0] == b[0];
      forall v ensures WithKey(a[1..], key, v) == WithKey(b[1..], key, v) {
        assert WithKey(a, key, v) == WithKey(b, key, v);
        if v == m {
          assert WithKey(a[1..], key, v) == WithKey(a, key, v)[1..];
          assert WithKey(b[1..], key, v) == WithKey(b, key, v)[1..];
        } else {
          assert WithKey(a[1..], key, v) == WithKey(a, key, v);
          assert WithKey(b[1..], key, v) == WithKey(b, key, v);
        }
      }
      SameClassesEqual(a[1..], b[1..], key);
      assert a == [a[0]] + a[1..];
      assert b == [b[0]] + b[1..];
    }
  }

  /**
    * The reference definition: a sequence ordered by key whose key classes
    * agree with those of `s` is exactly `SortDesc(s)`.
    */
  lemma SortDescUnique<T>(s: seq<T>, r: seq<T>, key: T -> int)
    requires SortedDesc(r, key)
    requires forall v :: WithKey(r, key, v) == WithKey(s, key, v)
    ensures r == SortDesc(s, key)
  {
    SortDescOrdered(s, key);
    SortDescStable(s, key);
    SameClassesEqual(r, SortDesc(s, key), key);
  }
}
