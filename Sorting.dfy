/** The `Array.prototype.sort` that the client pages call: a stable sort driven
    by a comparator `cmp(a, b)` whose sign says where `a` goes (positive: after
    `b`). It is modelled as a stable insertion sort, which returns the one
    result a stable sort can return whenever the comparator is consistent. */
module Sorting {
  import opened Common

  /** Inserts `x` before the first element it does not have to follow. */
  function Insert<T>(x: T, s: seq<T>, cmp: (T, T) -> real): (r: seq<T>)
    ensures |r| == |s| + 1
    ensures multiset(r) == multiset(s) + multiset{x}
  {
    if s == [] || cmp(x, s[0]) <= 0.0 then [x] + s
    else
      assert s == [s[0]] + s[1..];
      [s[0]] + Insert(x, s[1..], cmp)
  }

  /** Sorts `s`: each element, taken from the back, is inserted into the sorted rest. */
  function Sort<T>(s: seq<T>, cmp: (T, T) -> real): (r: seq<T>)
    ensures |r| == |s|
    ensures multiset(r) == multiset(s)
  {
    if s == [] then []
    else
      assert s == [s[0]] + s[1..];
      Insert(s[0], Sort(s[1..], cmp), cmp)
  }

  /** Non-decreasing by `key`. */
  ghost predicate SortedByKey<T>(s: seq<T>, key: T -> real)
  {
    forall i, j :: 0 <= i < j < |s| ==> key(s[i]) <= key(s[j])
  }

  /** On the elements of `s`, `cmp` is the comparator `key(a) - key(b)`. */
  ghost predicate ComparesByKey<T>(s: seq<T>, cmp: (T, T) -> real, key: T -> real)
  {
    forall a, b :: a in s && b in s ==> cmp(a, b) == key(a) - key(b)
  }

  /** Every element of an insertion result is the inserted element or was already there. */
  lemma InsertMember<T>(x: T, s: seq<T>, cmp: (T, T) -> real, y: T)
    requires y in Insert(x, s, cmp)
    ensures y == x || y in s
  {
    assert y in multiset(Insert(x, s, cmp));
  }

  /** Every element of a sorted list was in the input. */
  lemma SortMember<T>(s: seq<T>, cmp: (T, T) -> real, y: T)
    requires y in Sort(s, cmp)
    ensures y in s
  {
    assert y in multiset(Sort(s, cmp));
  }

  lemma ComparesByKeySub<T>(s: seq<T>, t: seq<T>, cmp: (T, T) -> real, key: T -> real)
    requires ComparesByKey(s, cmp, key)
    requires forall y :: y in t ==> y in s
    ensures ComparesByKey(t, cmp, key)
  {
  }

  /** Dropping the first element: the tail's elements were in the list, and
      with `x` in front they are still among `x` and the list. */
  lemma TailMembers<T>(x: T, s: seq<T>)
    requires s != []
    ensures forall y :: y in s[1..] ==> y in s
    ensures forall y :: y in [x] + s[1..] ==> y in [x] + s
  {
    assert s == [s[0]] + s[1..];
  }

  lemma SortedTail<T>(s: seq<T>, key: T -> real)
    requires s != [] && SortedByKey(s, key)
    ensures SortedByKey(s[1..], key)
  {
    forall i, j | 0 <= i < j < |s| - 1
      ensures key(s[1..][i]) <= key(s[1..][j])
    {
      assert s[1..][i] == s[i + 1] && s[1..][j] == s[j + 1];
    }
  }

  lemma SortedCons<T>(h: T, r: seq<T>, key: T -> real)
    requires SortedByKey(r, key)
    requires forall j :: 0 <= j < |r| ==> key(h) <= key(r[j])
    ensures SortedByKey([h] + r, key)
  {
    var t := [h] + r;
    forall i, j | 0 <= i < j < |t|
      ensures key(t[i]) <= key(t[j])
    {
      assert t[j] == r[j - 1];
      if i > 0 {
        assert t[i] == r[i - 1];
      }
    }
  }

  lemma {:induction false} InsertSorted<T>(x: T, s: seq<T>, cmp: (T, T) -> real, key: T -> real)
    requires SortedByKey(s, key)
    requires ComparesByKey([x] + s, cmp, key)
    ensures SortedByKey(Insert(x, s, cmp), key)
  {
    if s == [] || cmp(x, s[0]) <= 0.0 {
      if s != [] {
        assert key(x) <= key(s[0]);
        forall j | 0 <= j < |s|
          ensures key(x) <= key(s[j])
        {
          if j > 0 {
            assert key(s[0]) <= key(s[j]);
          }
        }
      }
      SortedCons(x, s, key);
    } else {
      var rest := s[1..];
      TailMembers(x, s);
      ComparesByKeySub([x] + s, [x] + rest, cmp, key);
      SortedTail(s, key);
      InsertSorted(x, rest, cmp, key);
      var r := Insert(x, rest, cmp);
      assert key(s[0]) < key(x);
      forall j | 0 <= j < |r|
        ensures key(s[0]) <= key(r[j])
      {
        assert r[j] in r;
        InsertMember(x, rest, cmp, r[j]);
        if r[j] != x {
          var m :| 0 <= m < |rest| && rest[m] == r[j];
          assert s[m + 1] == r[j];
        }
      }
      SortedCons(s[0], r, key);
    }
  }

  /** A comparator that agrees with a key on the elements sorts them by that key. */
  lemma {:induction false} SortSorted<T>(s: seq<T>, cmp: (T, T) -> real, key: T -> real)
    requires ComparesByKey(s, cmp, key)
    ensures SortedByKey(Sort(s, cmp), key)
  {
    if s != [] {
      var rest := s[1..];
      TailMembers(s[0], s);
      ComparesByKeySub(s, rest, cmp, key);
      SortSorted(rest, cmp, key);
      var sorted := Sort(rest, cmp);
      forall y | y in [s[0]] + sorted
        ensures y in s
      {
        if y != s[0] {
          SortMember(rest, cmp, y);
        }
      }
      ComparesByKeySub(s, [s[0]] + sorted, cmp, key);
      InsertSorted(s[0], sorted, cmp, key);
    }
  }

  /** The elements of `s` whose key is `v`, in their order in `s`. */
  function KeyClass<T>(s: seq<T>, key: T -> real, v: real): seq<T>
  {
    if s == [] then []
    else (if key(s[0]) == v then [s[0]] else []) + KeyClass(s[1..], key, v)
  }

  lemma KeyClassCons<T>(h: T, r: seq<T>, key: T -> real, v: real)
    ensures KeyClass([h] + r, key, v) == (if key(h) == v then [h] else []) + KeyClass(r, key, v)
  {
    assert ([h] + r)[0] == h && ([h] + r)[1..] == r;
  }

  /** Moving an element past one with a different key leaves each key class as it was. */
  lemma KeyClassPast<T>(h: T, x: T, r: seq<T>, rest: seq<T>, key: T -> real, v: real)
    requires key(h) != key(x)
    requires KeyClass(r, key, v) == (if key(x) == v then [x] else []) + KeyClass(rest, key, v)
    ensures KeyClass([h] + r, key, v) == (if key(x) == v then [x] else []) + KeyClass([h] + rest, key, v)
  {
    var hx := if key(x) == v then [x] else [];
    var h0 := if key(h) == v then [h] else [];
    var tail := KeyClass(rest, key, v);
    KeyClassCons(h, r, key, v);
    KeyClassCons(h, rest, key, v);
    if key(x) == v {
      assert h0 == [];
      assert h0 + (hx + tail) == hx + tail;
    } else {
      assert hx == [];
      assert hx + tail == tail;
    }
  }

  lemma {:induction false} InsertKeyClass<T>(x: T, s: seq<T>, cmp: (T, T) -> real, key: T -> real, v: real)
    requires ComparesByKey([x] + s, cmp, key)
    ensures KeyClass(Insert(x, s, cmp), key, v) == (if key(x) == v then [x] else []) + KeyClass(s, key, v)
  {
    if s == [] || cmp(x, s[0]) <= 0.0 {
      KeyClassCons(x, s, key, v);
    } else {
      var rest := s[1..];
      TailMembers(x, s);
      ComparesByKeySub([x] + s, [x] + rest, cmp, key);
      InsertKeyClass(x, rest, cmp, key, v);
      assert key(s[0]) < key(x);
      KeyClassPast(s[0], x, Insert(x, rest, cmp), rest, key, v);
      assert [s[0]] + rest == s;
    }
  }

  /** Stability: within each key value the input order survives the sort. */
  lemma {:induction false} SortStable<T>(s: seq<T>, cmp: (T, T) -> real, key: T -> real, v: real)
    requires ComparesByKey(s, cmp, key)
    ensures KeyClass(Sort(s, cmp), key, v) == KeyClass(s, key, v)
  {
    if s != [] {
      var rest := s[1..];
      TailMembers(s[0], s);
      ComparesByKeySub(s, rest, cmp, key);
      SortStable(rest, cmp, key, v);
      var sorted := Sort(rest, cmp);
      forall y | y in [s[0]] + sorted
        ensures y in s
      {
        if y != s[0] {
          SortMember(rest, cmp, y);
        }
      }
      ComparesByKeySub(s, [s[0]] + sorted, cmp, key);
      InsertKeyClass(s[0], sorted, cmp, key, v);
    }
  }

  /** Sorting an already sorted list leaves it as it is. */
  lemma {:induction false} SortOfSorted<T>(s: seq<T>, cmp: (T, T) -> real, key: T -> real)
    requires ComparesByKey(s, cmp, key)
    requires SortedByKey(s, key)
    ensures Sort(s, cmp) == s
  {
    if s != [] {
      var rest := s[1..];
      TailMembers(s[0], s);
      ComparesByKeySub(s, rest, cmp, key);
      SortedTail(s, key);
      SortOfSorted(rest, cmp, key);
      if rest != [] {
        assert key(s[0]) <= key(s[1]);
        assert rest[0] == s[1];
      }
      assert [s[0]] + rest == s;
    }
  }
}
