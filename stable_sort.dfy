/** `Array.prototype.sort` with a comparator `(a, b) => key(a) - key(b)`.
    The ECMAScript sort is stable, so its result is determined: sorted by the
    key, and elements with equal keys in their original relative order.
    `SortBy` computes that result by insertion; `SortByIsStableSort` proves it
    has both properties and `StableSortIsUnique` that nothing else has them. */
module StableSort {

  predicate SortedBy<T>(s: seq<T>, key: T -> int) {
    forall i, j :: 0 <= i < j < |s| ==> key(s[i]) <= key(s[j])
  }

  /** The elements of `s` whose key is `k`, in order. */
  function WithKey<T>(s: seq<T>, key: T -> int, k: int): seq<T> {
    if s == [] then []
    else (if key(s[0]) == k then [s[0]] else []) + WithKey(s[1..], key, k)
  }

  /** Inserts `x` after every element whose key is not greater than its own. */
  function Insert<T>(s: seq<T>, x: T, key: T -> int): (r: seq<T>)
    ensures |r| == |s| + 1
  {
    if s == [] then [x]
    else if key(s[0]) <= key(x) then [s[0]] + Insert(s[1..], x, key)
    else [x] + s
  }

  /** Sorted by the key. */
  function SortBy<T>(s: seq<T>, key: T -> int): (r: seq<T>)
    ensures SortedBy(r, key)
  {
    if s == [] then []
    else
      InsertSorted(SortBy(s[..|s| - 1], key), s[|s| - 1], key);
      Insert(SortBy(s[..|s| - 1], key), s[|s| - 1], key)
  }

  lemma {:induction false} WithKeyAppend<T>(a: seq<T>, b: seq<T>, key: T -> int, k: int)
    ensures WithKey(a + b, key, k) == WithKey(a, key, k) + WithKey(b, key, k)
  {
    if a == [] {
      assert a + b == b;
    } else {
      var head: seq<T> := if key(a[0]) == k then [a[0]] else [];
      assert (a + b)[0] == a[0];
      assert (a + b)[1..] == a[1..] + b;
      WithKeyAppend(a[1..], b, key, k);
      calc {
        WithKey(a + b, key, k);
        head + WithKey(a[1..] + b, key, k);
        head + (WithKey(a[1..], key, k) + WithKey(b, key, k));
        (head + WithKey(a[1..], key, k)) + WithKey(b, key, k);
        WithKey(a, key, k) + WithKey(b, key, k);
      }
    }
  }

  lemma {:induction false} WithKeyMembers<T>(s: seq<T>, key: T -> int, k: int)
    ensures forall x :: x in WithKey(s, key, k) ==> x in s && key(x) == k
  {
    if s != [] {
      WithKeyMembers(s[1..], key, k);
    }
  }

  /** In a sorted sequence whose first key exceeds `k`, nothing has key `k`. */
  lemma {:induction false} WithKeyAboveAll<T>(s: seq<T>, key: T -> int, k: int)
    requires SortedBy(s, key)
    requires s != [] ==> k < key(s[0])
    ensures WithKey(s, key, k) == []
  {
    if s != [] {
      WithKeyAboveAll(s[1..], key, k);
    }
  }

  /** A lower bound of every key of `s` and of `x` bounds every key after insertion. */
  lemma {:induction false} InsertLowerBound<T>(s: seq<T>, x: T, key: T -> int, b: int)
    requires b <= key(x)
    requires forall j :: 0 <= j < |s| ==> b <= key(s[j])
    ensures forall j :: 0 <= j < |Insert(s, x, key)| ==> b <= key(Insert(s, x, key)[j])
  {
    if s != [] && key(s[0]) <= key(x) {
      InsertLowerBound(s[1..], x, key, b);
      var rest := Insert(s[1..], x, key);
      assert Insert(s, x, key) == [s[0]] + rest;
    }
  }

  /** An element no greater than every key of a sorted sequence can go in front. */
  lemma ConsSorted<T>(h: T, rest: seq<T>, key: T -> int)
    requires SortedBy(rest, key)
    requires forall j :: 0 <= j < |rest| ==> key(h) <= key(rest[j])
    ensures SortedBy([h] + rest, key)
  {
    var r := [h] + rest;
    forall i, j | 0 <= i < j < |r| ensures key(r[i]) <= key(r[j]) {
      assert r[j] == rest[j - 1];
      if i > 0 {
        assert r[i] == rest[i - 1];
      }
    }
  }

  lemma {:induction false} InsertSorted<T>(s: seq<T>, x: T, key: T -> int)
    requires SortedBy(s, key)
    ensures SortedBy(Insert(s, x, key), key)
  {
    if s == [] {
      assert Insert(s, x, key) == [x];
    } else if key(s[0]) <= key(x) {
      var rest := Insert(s[1..], x, key);
      assert SortedBy(s[1..], key) by {
        forall i, j | 0 <= i < j < |s[1..]| ensures key(s[1..][i]) <= key(s[1..][j]) {
          assert s[1..][i] == s[i + 1] && s[1..][j] == s[j + 1];
        }
      }
      InsertSorted(s[1..], x, key);
      assert forall j :: 0 <= j < |s[1..]| ==> key(s[0]) <= key(s[1..][j]) by {
        forall j | 0 <= j < |s[1..]| ensures key(s[0]) <= key(s[1..][j]) {
          assert s[1..][j] == s[j + 1];
        }
      }
      InsertLowerBound(s[1..], x, key, key(s[0]));
      ConsSorted(s[0], rest, key);
    } else {
      assert forall j :: 0 <= j < |s| ==> key(x) <= key(s[j]) by {
        forall j | 0 <= j < |s| ensures key(x) <= key(s[j]) {
          assert key(s[0]) <= key(s[j]) || j == 0;
        }
      }
      ConsSorted(x, s, key);
    }
  }

  lemma {:induction false} InsertPermutes<T>(s: seq<T>, x: T, key: T -> int)
    ensures multiset(Insert(s, x, key)) == multiset(s) + multiset{x}
  {
    if s != [] && key(s[0]) <= key(x) {
      InsertPermutes(s[1..], x, key);
      assert s == [s[0]] + s[1..];
      assert Insert(s, x, key) == [s[0]] + Insert(s[1..], x, key);
    }
  }

  lemma SortedTail<T>(s: seq<T>, key: T -> int)
    requires SortedBy(s, key) && s != []
    ensures SortedBy(s[1..], key)
  {
    forall i, j | 0 <= i < j < |s[1..]| ensures key(s[1..][i]) <= key(s[1..][j]) {
      assert s[1..][i] == s[i + 1] && s[1..][j] == s[j + 1];
    }
  }

  lemma {:induction false} InsertWithKey<T>(s: seq<T>, x: T, key: T -> int, k: int)
    requires SortedBy(s, key)
    ensures WithKey(Insert(s, x, key), key, k) == WithKey(s, key, k) + (if key(x) == k then [x] else [])
  {
    var tail: seq<T> := if key(x) == k then [x] else [];
    if s == [] {
      assert Insert(s, x, key) == [x];
      assert [x][1..] == [];
    } else if key(s[0]) <= key(x) {
      var head: seq<T> := if key(s[0]) == k then [s[0]] else [];
      var rest := Insert(s[1..], x, key);
      assert Insert(s, x, key) == [s[0]] + rest;
      assert ([s[0]] + rest)[0] == s[0];
      assert ([s[0]] + rest)[1..] == rest;
      SortedTail(s, key);
      InsertWithKey(s[1..], x, key, k);
      calc {
        WithKey(Insert(s, x, key), key, k);
        head + WithKey(rest, key, k);
        head + (WithKey(s[1..], key, k) + tail);
        (head + WithKey(s[1..], key, k)) + tail;
        WithKey(s, key, k) + tail;
      }
    } else {
      assert Insert(s, x, key) == [x] + s;
      assert ([x] + s)[0] == x;
      assert ([x] + s)[1..] == s;
      if key(x) == k {
        WithKeyAboveAll(s, key, k);
        assert WithKey(Insert(s, x, key), key, k) == [x] + WithKey(s, key, k);
      } else {
        assert WithKey(Insert(s, x, key), key, k) == WithKey(s, key, k);
      }
    }
  }

  /** Sorting yields a sorted permutation that keeps, for every key, the
      elements with that key in their original order. */
  lemma {:induction false} SortByIsStableSort<T>(s: seq<T>, key: T -> int)
    ensures SortedBy(SortBy(s, key), key)
    ensures multiset(SortBy(s, key)) == multiset(s)
    ensures |SortBy(s, key)| == |s|
    ensures forall k :: WithKey(SortBy(s, key), key, k) == WithKey(s, key, k)
  {
    if s != [] {
      var init, last := s[..|s| - 1], s[|s| - 1];
      assert s == init + [last];
      SortByIsStableSort(init, key);
      InsertSorted(SortBy(init, key), last, key);
      InsertPermutes(SortBy(init, key), last, key);
      forall k ensures WithKey(SortBy(s, key), key, k) == WithKey(s, key, k) {
        InsertWithKey(SortBy(init, key), last, key, k);
        WithKeyAppend(init, [last], key, k);
      }
    }
  }

  lemma FirstHasClass<T>(s: seq<T>, key: T -> int)
    ensures s != [] ==> WithKey(s, key, key(s[0])) != []
  {
  }

  /** Two sorted sequences that agree on the elements of every key are equal. */
  lemma {:induction false} SortedClassesDetermine<T>(a: seq<T>, b: seq<T>, key: T -> int)
    requires SortedBy(a, key) && SortedBy(b, key)
    requires forall k :: WithKey(a, key, k) == WithKey(b, key, k)
    ensures a == b
  {
    if a == [] || b == [] {
      FirstHasClass(a, key);
      FirstHasClass(b, key);
    } else {
      var ka, kb := key(a[0]), key(b[0]);
      assert b[0] in WithKey(b, key, kb);
      assert a[0] in WithKey(a, key, ka);
      WithKeyMembers(a, key, kb);
      WithKeyMembers(b, key, ka);
      assert ka == kb;
      assert WithKey(a, key, ka) == [a[0]] + WithKey(a[1..], key, ka);
      assert WithKey(b, key, ka) == [b[0]] + WithKey(b[1..], key, ka);
      assert WithKey(a, key, ka) == WithKey(b, key, ka);
      assert WithKey(a, key, ka)[0] == a[0] && WithKey(b, key, ka)[0] == b[0];
      assert a[0] == b[0];
      forall k ensures WithKey(a[1..], key, k) == WithKey(b[1..], key, k) {
        var wa, wb := WithKey(a, key, k), WithKey(b, key, k);
        assert wa == wb;
        if ka == k {
          assert wa[1..] == WithKey(a[1..], key, k);
          assert wb[1..] == WithKey(b[1..], key, k);
        } else {
          assert wa == WithKey(a[1..], key, k);
          assert wb == WithKey(b[1..], key, k);
        }
      }
      SortedClassesDetermine(a[1..], b[1..], key);
      assert a == [a[0]] + a[1..];
      assert b == [b[0]] + b[1..];
    }
  }

  /** Any stable sort by `key` returns what `SortBy` returns. */
  lemma StableSortIsUnique<T>(s: seq<T>, r: seq<T>, key: T -> int)
    requires SortedBy(r, key)
    requires forall k :: WithKey(r, key, k) == WithKey(s, key, k)
    ensures r == SortBy(s, key)
  {
    SortByIsStableSort(s, key);
    SortedClassesDetermine(r, SortBy(s, key), key);
  }
}
