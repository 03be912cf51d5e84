/** Stable sorting by an integer key, and why its result is the only one possible. */
module StableSorting {
  /** The elements with this key, in order. */
  function WithKey<T>(s: seq<T>, key: T -> int, k: int): seq<T> {
    if s == [] then [] else (if key(s[0]) == k then [s[0]] else []) + WithKey(s[1..], key, k)
  }

  ghost predicate Ascending<T>(s: seq<T>, key: T -> int) {
    forall i, j :: 0 <= i < j < |s| ==> key(s[i]) <= key(s[j])
  }

  /** Sorted, and for every key the same elements in the same order: a stable permutation. */
  ghost predicate IsStableSort<T>(out: seq<T>, s: seq<T>, key: T -> int) {
    Ascending(out, key) && forall k: int :: WithKey(out, key, k) == WithKey(s, key, k)
  }

  function Insert<T>(x: T, s: seq<T>, key: T -> int): seq<T> {
    if s == [] || key(x) <= key(s[0]) then [x] + s else [s[0]] + Insert(x, s[1..], key)
  }

  /** `sort.SliceStable`. */
  function StableSort<T>(s: seq<T>, key: T -> int): seq<T> {
    if s == [] then [] else Insert(s[0], StableSort(s[1..], key), key)
  }

  lemma {:induction false} InsertIsStable<T>(x: T, s: seq<T>, key: T -> int)
    requires Ascending(s, key)
    ensures IsStableSort(Insert(x, s, key), [x] + s, key)
  {
    var out := Insert(x, s, key);
    if s == [] || key(x) <= key(s[0]) {
    } else {
      var tail := s[1..];
      InsertIsStable(x, tail, key);
      InsertMembers(x, tail, key);
      assert forall i :: 0 < i < |s| ==> tail[i - 1] == s[i];
      forall k: int ensures WithKey(out, key, k) == WithKey([x] + s, key, k) {
        assert out[1..] == Insert(x, tail, key);
        assert ([x] + tail)[1..] == tail && ([x] + s)[1..] == s;
        assert WithKey(Insert(x, tail, key), key, k) == WithKey([x] + tail, key, k);
      }
      forall i, j | 0 <= i < j < |out| ensures key(out[i]) <= key(out[j]) {
        if i == 0 {
          assert out[j] in Insert(x, tail, key);
        }
      }
    }
  }

  lemma {:induction false} InsertMembers<T>(x: T, s: seq<T>, key: T -> int)
    ensures forall y :: y in Insert(x, s, key) <==> y == x || y in s
  {
    if s != [] && key(x) > key(s[0]) {
      InsertMembers(x, s[1..], key);
    }
  }

  lemma {:induction false} StableSortIsStable<T>(s: seq<T>, key: T -> int)
    ensures IsStableSort(StableSort(s, key), s, key)
  {
    if s != [] {
      var tail := StableSort(s[1..], key);
      StableSortIsStable(s[1..], key);
      InsertIsStable(s[0], tail, key);
      forall k: int ensures WithKey(StableSort(s, key), key, k) == WithKey(s, key, k) {
        assert ([s[0]] + tail)[1..] == tail;
      }
    }
  }

  lemma {:induction false} WithKeyMembers<T>(s: seq<T>, key: T -> int, k: int)
    ensures forall x :: x in WithKey(s, key, k) <==> x in s && key(x) == k
  {
    if s != [] {
      WithKeyMembers(s[1..], key, k);
    }
  }

  /** The same filters, the same members. */
  lemma SameMembers<T>(a: seq<T>, b: seq<T>, key: T -> int)
    requires forall k: int :: WithKey(a, key, k) == WithKey(b, key, k)
    ensures forall x :: x in a <==> x in b
  {
    forall x ensures x in a <==> x in b {
      WithKeyMembers(a, key, key(x));
      WithKeyMembers(b, key, key(x));
    }
  }

  lemma {:induction false} HeadOfLeastKey<T>(s: seq<T>, key: T -> int)
    requires s != []
    ensures WithKey(s, key, key(s[0])) != [] && WithKey(s, key, key(s[0]))[0] == s[0]
  {
  }

  /** There is only one stable sort. */
  lemma {:induction false} StableSortIsUnique<T>(a: seq<T>, b: seq<T>, s: seq<T>, key: T -> int)
    requires IsStableSort(a, s, key) && IsStableSort(b, s, key)
    ensures a == b
    decreases |a|
  {
    SameFilters(a, b, key);
  }

  /** Two sorted sequences with the same filters start alike. */
  lemma SameHead<T>(a: seq<T>, b: seq<T>, key: T -> int)
    requires Ascending(a, key) && Ascending(b, key) && a != []
    requires forall k: int :: WithKey(a, key, k) == WithKey(b, key, k)
    ensures b != [] && a[0] == b[0]
  {
    hide WithKey;
    var k := key(a[0]);
    HeadOfLeastKey(a, key);
    WithKeyMembers(b, key, k);
    assert a[0] in WithKey(b, key, k);
    var l := key(b[0]);
    HeadOfLeastKey(b, key);
    WithKeyMembers(a, key, l);
    assert b[0] in WithKey(a, key, l);
    FirstIsLeast(a, b[0], key);
    FirstIsLeast(b, a[0], key);
    assert WithKey(a, key, k) == WithKey(b, key, l);
  }

  lemma FirstIsLeast<T>(s: seq<T>, x: T, key: T -> int)
    requires Ascending(s, key) && x in s
    ensures key(s[0]) <= key(x)
  {
  }

  lemma WithKeyOfTail<T>(s: seq<T>, key: T -> int, k: int)
    requires s != []
    ensures WithKey(s, key, k) == (if key(s[0]) == k then [s[0]] else []) + WithKey(s[1..], key, k)
  {
  }

  lemma {:induction false} SameFilters<T>(a: seq<T>, b: seq<T>, key: T -> int)
    requires Ascending(a, key) && Ascending(b, key)
    requires forall k: int :: WithKey(a, key, k) == WithKey(b, key, k)
    ensures a == b
    decreases |a|
  {
    if a == [] {
      if b != [] { HeadOfLeastKey(b, key); }
    } else {
      SameHead(a, b, key);
      hide WithKey;
      forall k: int ensures WithKey(a[1..], key, k) == WithKey(b[1..], key, k) {
        WithKeyOfTail(a, key, k);
        WithKeyOfTail(b, key, k);
        var n := if key(a[0]) == k then 1 else 0;
        assert WithKey(a[1..], key, k) == WithKey(a, key, k)[n..];
        assert WithKey(b[1..], key, k) == WithKey(b, key, k)[n..];
      }
      SameFilters(a[1..], b[1..], key);
    }
  }
}
