/**
 * The Kotlin collection operations the schedule store is built from:
 * a stable `sortedBy`, `MutableList.remove(element)` and `coerceIn`.
 */
module Lists {

  /** Kotlin's `filter { key(it) == v }`: the elements whose key is `v`, in their original order. */
  function KeyFilter<T>(s: seq<T>, key: T -> int, v: int): (r: seq<T>)
    ensures |r| <= |s|
    ensures forall i :: 0 <= i < |r| ==> key(r[i]) == v
  {
    if s == [] then [] else (if key(s[0]) == v then [s[0]] else []) + KeyFilter(s[1..], key, v)
  }

  /** The filter holds exactly the elements of `s` whose key is `v`. */
  lemma {:induction false} KeyFilterMembers<T>(s: seq<T>, key: T -> int, v: int)
    ensures forall x :: x in KeyFilter(s, key, v) <==> x in s && key(x) == v
  {
    if s != [] {
      KeyFilterMembers(s[1..], key, v);
      assert s == [s[0]] + s[1..];
    }
  }

  /** Kotlin's `filter { key(it) != w }`: the elements whose key is not `w`, in their original order. */
  function KeyExclude<T>(s: seq<T>, key: T -> int, w: int): (r: seq<T>)
    ensures |r| <= |s|
    ensures forall i :: 0 <= i < |r| ==> key(r[i]) != w
  {
    if s == [] then [] else (if key(s[0]) != w then [s[0]] else []) + KeyExclude(s[1..], key, w)
  }

  /** The exclusion holds exactly the elements of `s` whose key is not `w`. */
  lemma {:induction false} KeyExcludeMembers<T>(s: seq<T>, key: T -> int, w: int)
    ensures forall x :: x in KeyExclude(s, key, w) <==> x in s && key(x) != w
  {
    if s != [] {
      KeyExcludeMembers(s[1..], key, w);
      assert s == [s[0]] + s[1..];
    }
  }

  /** Excluding one key leaves the elements of every other key exactly as they were. */
  lemma {:induction false} KeyFilterOfExclude<T>(s: seq<T>, key: T -> int, w: int, v: int)
    requires v != w
    ensures KeyFilter(KeyExclude(s, key, w), key, v) == KeyFilter(s, key, v)
  {
    if s != [] {
      var e := if key(s[0]) != w then [s[0]] else [];
      KeyFilterOfExclude(s[1..], key, w, v);
      KeyFilterConcat(e, KeyExclude(s[1..], key, w), key, v);
      assert KeyFilter(e, key, v) == if key(s[0]) == v then [s[0]] else [];
    }
  }

  /** Splitting by one key loses and duplicates nothing. */
  lemma {:induction false} KeyPartition<T>(s: seq<T>, key: T -> int, v: int)
    ensures multiset(KeyFilter(s, key, v)) + multiset(KeyExclude(s, key, v)) == multiset(s)
  {
    if s != [] {
      KeyPartition(s[1..], key, v);
      KeyPartitionStep(s, key, v);
      MultisetCons(s);
    }
  }

  lemma KeyPartitionStep<T>(s: seq<T>, key: T -> int, v: int)
    requires s != []
    ensures multiset(KeyFilter(s, key, v)) + multiset(KeyExclude(s, key, v))
         == multiset{s[0]} + (multiset(KeyFilter(s[1..], key, v)) + multiset(KeyExclude(s[1..], key, v)))
  {
    var f, x := KeyFilter(s[1..], key, v), KeyExclude(s[1..], key, v);
    if key(s[0]) == v {
      assert KeyFilter(s, key, v) == [s[0]] + f && KeyExclude(s, key, v) == x;
      assert multiset([s[0]] + f) == multiset{s[0]} + multiset(f);
    } else {
      assert KeyFilter(s, key, v) == f && KeyExclude(s, key, v) == [s[0]] + x;
      assert multiset([s[0]] + x) == multiset{s[0]} + multiset(x);
    }
  }

  lemma MultisetCons<T>(s: seq<T>)
    requires s != []
    ensures multiset(s) == multiset{s[0]} + multiset(s[1..])
  {
    assert s == [s[0]] + s[1..];
  }


  /** A sequence whose elements all have key `v` is its own filter. */
  lemma {:induction false} KeyFilterAll<T>(s: seq<T>, key: T -> int, v: int)
    requires forall i :: 0 <= i < |s| ==> key(s[i]) == v
    ensures KeyFilter(s, key, v) == s
  {
    if s != [] {
      KeyFilterAll(s[1..], key, v);
    }
  }

  /** A sequence without elements of key `v` has an empty filter for `v`. */
  lemma {:induction false} KeyFilterNone<T>(s: seq<T>, key: T -> int, v: int)
    requires forall i :: 0 <= i < |s| ==> key(s[i]) != v
    ensures KeyFilter(s, key, v) == []
  {
    if s != [] {
      KeyFilterNone(s[1..], key, v);
    }
  }

  /** The first element of a sequence heads the filter for its own key. */
  lemma KeyFilterHead<T>(s: seq<T>, key: T -> int)
    ensures s != [] ==> KeyFilter(s, key, key(s[0])) != [] && KeyFilter(s, key, key(s[0]))[0] == s[0]
  {
  }

  lemma {:induction false} KeyFilterConcat<T>(a: seq<T>, b: seq<T>, key: T -> int, v: int)
    ensures KeyFilter(a + b, key, v) == KeyFilter(a, key, v) + KeyFilter(b, key, v)
  {
    if a == [] {
      assert a + b == b;
    } else {
      assert (a + b)[1..] == a[1..] + b;
      KeyFilterConcat(a[1..], b, key, v);
    }
  }

  predicate SortedBy<T>(s: seq<T>, key: T -> int) {
    forall i, j :: 0 <= i < j < |s| ==> key(s[i]) <= key(s[j])
  }

  /** Inserts `x` before the first element whose key is not smaller. */
  function Insert<T>(x: T, s: seq<T>, key: T -> int): (r: seq<T>)
    ensures |r| == |s| + 1 && multiset(r) == multiset(s) + multiset{x}
  {
    if s == [] || key(x) <= key(s[0]) then [x] + s
    else
      assert s == [s[0]] + s[1..];
      [s[0]] + Insert(x, s[1..], key)
  }

  lemma {:induction false} InsertSorted<T>(x: T, s: seq<T>, key: T -> int)
    requires SortedBy(s, key)
    ensures SortedBy(Insert(x, s, key), key)
  {
    if s != [] && key(x) > key(s[0]) {
      var rest := Insert(x, s[1..], key);
      InsertSorted(x, s[1..], key);
      forall j | 0 <= j < |rest| ensures key(s[0]) <= key(rest[j]) {
        assert rest[j] in multiset(rest);
        if rest[j] != x {
          assert rest[j] in multiset(s[1..]);
          var k :| 0 <= k < |s[1..]| && s[1..][k] == rest[j];
          assert s[k + 1] == rest[j];
        }
      }
    }
  }

  lemma KeyFilterCons<T>(y: T, t: seq<T>, key: T -> int, v: int)
    ensures KeyFilter([y] + t, key, v) == (if key(y) == v then [y] else []) + KeyFilter(t, key, v)
  {
    assert ([y] + t)[1..] == t;
  }

  /** Insertion only passes over elements with smaller keys, so each key's elements keep their order. */
  lemma {:induction false} InsertStable<T>(x: T, s: seq<T>, key: T -> int, v: int)
    ensures KeyFilter(Insert(x, s, key), key, v) == KeyFilter([x] + s, key, v)
  {
    if s != [] && key(x) > key(s[0]) {
      var y, t := s[0], s[1..];
      assert s == [y] + t;
      var rest := Insert(x, t, key);
      assert Insert(x, s, key) == [y] + rest;
      InsertStable(x, t, key, v);
      PassOver(x, y, t, rest, key, v);
    }
  }

  /** Moving `x` past an element with a smaller key does not change any key's filter. */
  lemma PassOver<T>(x: T, y: T, t: seq<T>, rest: seq<T>, key: T -> int, v: int)
    requires key(y) < key(x)
    requires KeyFilter(rest, key, v) == KeyFilter([x] + t, key, v)
    ensures KeyFilter([y] + rest, key, v) == KeyFilter([x] + ([y] + t), key, v)
  {
    KeyFilterCons(y, rest, key, v);
    KeyFilterCons(x, t, key, v);
    KeyFilterCons(y, t, key, v);
    KeyFilterCons(x, [y] + t, key, v);
    var hx, hy := (if key(x) == v then [x] else []), (if key(y) == v then [y] else []);
    assert hx == [] || hy == [];
    assert hy + (hx + KeyFilter(t, key, v)) == hx + (hy + KeyFilter(t, key, v));
  }

  /** Inserting `x` into a sorted, stable arrangement of `t` gives one of `[x] + t`. */
  lemma InsertStep<T>(x: T, rest: seq<T>, t: seq<T>, key: T -> int)
    requires SortedBy(rest, key) && multiset(rest) == multiset(t)
    requires forall v :: KeyFilter(rest, key, v) == KeyFilter(t, key, v)
    ensures SortedBy(Insert(x, rest, key), key)
    ensures multiset(Insert(x, rest, key)) == multiset([x] + t)
    ensures forall v :: KeyFilter(Insert(x, rest, key), key, v) == KeyFilter([x] + t, key, v)
  {
    InsertSorted(x, rest, key);
    forall v ensures KeyFilter(Insert(x, rest, key), key, v) == KeyFilter([x] + t, key, v) {
      InsertStable(x, rest, key, v);
      KeyFilterCons(x, rest, key, v);
      KeyFilterCons(x, t, key, v);
    }
  }

  /** Kotlin's `sortedBy(key)`: a stable sort, so elements with equal keys keep their order. */
  function SortBy<T>(s: seq<T>, key: T -> int): (r: seq<T>)
    ensures |r| == |s| && multiset(r) == multiset(s)
    ensures SortedBy(r, key)
    ensures forall v :: KeyFilter(r, key, v) == KeyFilter(s, key, v)
  {
    if s == [] then []
    else
      var rest := SortBy(s[1..], key);
      InsertStep(s[0], rest, s[1..], key);
      assert [s[0]] + s[1..] == s;
      Insert(s[0], rest, key)
  }

  /** Two sorted sequences whose first-key filters agree start with the same element. */
  lemma SortedHeadsAgree<T>(a: seq<T>, b: seq<T>, key: T -> int)
    requires a != [] && b != [] && SortedBy(a, key) && SortedBy(b, key)
    requires KeyFilter(a, key, key(a[0])) == KeyFilter(b, key, key(a[0]))
    requires KeyFilter(a, key, key(b[0])) == KeyFilter(b, key, key(b[0]))
    ensures a[0] == b[0]
  {
    var v, w := key(a[0]), key(b[0]);
    KeyFilterHead(a, key);
    KeyFilterHead(b, key);
    KeyFilterMembers(a, key, w);
    KeyFilterMembers(b, key, v);
    assert a[0] in KeyFilter(b, key, v);
    var j :| 0 <= j < |b| && b[j] == a[0];
    assert w <= v;
    assert b[0] in KeyFilter(a, key, w);
    var i :| 0 <= i < |a| && a[i] == b[0];
    assert v <= w;
  }

  /** Filters that agree on sequences with a common head agree on the tails. */
  lemma TailFiltersAgree<T>(a: seq<T>, b: seq<T>, key: T -> int, u: int)
    requires a != [] && b != [] && a[0] == b[0]
    requires KeyFilter(a, key, u) == KeyFilter(b, key, u)
    ensures KeyFilter(a[1..], key, u) == KeyFilter(b[1..], key, u)
  {
    var h := if key(a[0]) == u then [a[0]] else [];
    assert KeyFilter(a, key, u) == h + KeyFilter(a[1..], key, u);
    assert KeyFilter(b, key, u) == h + KeyFilter(b[1..], key, u);
    assert KeyFilter(a[1..], key, u) == KeyFilter(a, key, u)[|h|..];
    assert KeyFilter(b[1..], key, u) == KeyFilter(b, key, u)[|h|..];
  }

  /**
   * A sequence sorted by `key` is determined by its elements of each key, in
   * order: two sorted sequences that agree key by key are equal.
   */
  lemma {:induction false} SortedByDetermined<T>(a: seq<T>, b: seq<T>, key: T -> int)
    requires SortedBy(a, key) && SortedBy(b, key)
    requires forall v :: KeyFilter(a, key, v) == KeyFilter(b, key, v)
    ensures a == b
    decreases |a|
  {
    if a == [] || b == [] {
      KeyFilterHead(a, key);
      KeyFilterHead(b, key);
    } else {
      SortedTailsAgree(a, b, key);
      SortedByDetermined(a[1..], b[1..], key);
      SameHeadAndTail(a, b);
    }
  }

  lemma SameHeadAndTail<T>(a: seq<T>, b: seq<T>)
    requires a != [] && b != [] && a[0] == b[0] && a[1..] == b[1..]
    ensures a == b
  {
    assert a == [a[0]] + a[1..];
    assert b == [b[0]] + b[1..];
  }

  /** One step of that argument: the heads agree, and so do the tails, key by key. */
  lemma SortedTailsAgree<T>(a: seq<T>, b: seq<T>, key: T -> int)
    requires a != [] && b != [] && SortedBy(a, key) && SortedBy(b, key)
    requires forall v :: KeyFilter(a, key, v) == KeyFilter(b, key, v)
    ensures a[0] == b[0] && SortedBy(a[1..], key) && SortedBy(b[1..], key)
    ensures forall u :: KeyFilter(a[1..], key, u) == KeyFilter(b[1..], key, u)
  {
    SortedHeadsAgree(a, b, key);
    forall u ensures KeyFilter(a[1..], key, u) == KeyFilter(b[1..], key, u) {
      TailFiltersAgree(a, b, key, u);
    }
  }

  /** `MutableList.remove(element)`: drops the first element equal to `x`, if any. */
  function RemoveFirst<T(==)>(s: seq<T>, x: T): (r: seq<T>)
    ensures x !in s ==> r == s
  {
    if s == [] then []
    else if s[0] == x then s[1..]
    else [s[0]] + RemoveFirst(s[1..], x)
  }

  /** Removing an element whose first occurrence is at `i` takes out exactly index `i`. */
  lemma {:induction false} RemoveFirstAt<T>(s: seq<T>, i: nat)
    requires i < |s| && forall j :: 0 <= j < i ==> s[j] != s[i]
    ensures RemoveFirst(s, s[i]) == s[..i] + s[i + 1..]
  {
    if i > 0 {
      assert s[1..][i - 1] == s[i];
      RemoveFirstAt(s[1..], i - 1);
      assert s[..i] + s[i + 1..] == [s[0]] + (s[1..][..i - 1] + s[1..][i..]);
    }
  }

  /** Kotlin's `coerceIn(minimumValue, maximumValue)`, which demands `lo <= hi`. */
  function CoerceIn(v: int, lo: int, hi: int): (r: int)
    requires lo <= hi
    ensures lo <= r <= hi
    ensures lo <= v <= hi ==> r == v
    ensures v < lo ==> r == lo
    ensures v > hi ==> r == hi
  {
    if v < lo then lo else if v > hi then hi else v
  }
}
