/** Sorting as the notes app uses it: `Array.prototype.sort` with a numeric comparator on the
    client, `.sort({field: ±1})` in the store, and the default string sort of tag names.
    The library sorts are modelled by insertion sort: the result is ordered, is a permutation
    of the input and, as `Array.prototype.sort` must be, keeps elements of equal key in their
    input order. */
module Sorting {
  import opened SeqUtil
  import opened JsString

  /** Non-decreasing by `key`. */
  ghost predicate SortedBy<T>(s: seq<T>, key: T -> int) {
    forall i, j :: 0 <= i < j < |s| ==> key(s[i]) <= key(s[j])
  }

  /** Insert `x` in front of the first element whose key is not smaller. */
  function InsertByKey<T>(x: T, s: seq<T>, key: T -> int): (r: seq<T>)
    ensures multiset(r) == multiset(s) + multiset{x}
    ensures |r| == |s| + 1
    ensures forall y :: y in r ==> y == x || y in s
  {
    if s == [] then [x]
    else if key(x) <= key(s[0]) then [x] + s
    else
      assert s == [s[0]] + s[1..];
      [s[0]] + InsertByKey(x, s[1..], key)
  }

  lemma {:induction false} InsertByKeySorted<T>(x: T, s: seq<T>, key: T -> int)
    requires SortedBy(s, key)
    ensures SortedBy(InsertByKey(x, s, key), key)
  {
    if s != [] && key(x) > key(s[0]) {
      var rest := InsertByKey(x, s[1..], key);
      InsertByKeySorted(x, s[1..], key);
      var t := s[1..];
      assert rest[0] == x || (t != [] && rest[0] == t[0]);
      assert key(s[0]) <= key(rest[0]);
      var r := [s[0]] + rest;
      forall i, j | 0 <= i < j < |r| ensures key(r[i]) <= key(r[j]) {
        if i == 0 {
          assert r[j] == rest[j - 1];
          assert key(rest[0]) <= key(rest[j - 1]);
        } else {
          assert r[i] == rest[i - 1] && r[j] == rest[j - 1];
        }
      }
    }
  }

  /** Sort ascending by `key`; a descending order is a sort by the negated key. */
  function SortByKey<T>(s: seq<T>, key: T -> int): (r: seq<T>)
    ensures SortedBy(r, key)
    ensures multiset(r) == multiset(s)
    ensures |r| == |s|
  {
    if s == [] then []
    else
      assert s == [s[0]] + s[1..];
      var rest := SortByKey(s[1..], key);
      InsertByKeySorted(s[0], rest, key);
      InsertByKey(s[0], rest, key)
  }

  /** Holds of the elements whose key is `k`. */
  function KeyIs<T>(key: T -> int, k: int): (p: T -> bool) {
    (x: T) => key(x) == k
  }

  /** Filtering a one-element sequence. */
  lemma FilterSingleton<T(!new)>(x: T, p: T -> bool)
    ensures Filter([x], p) == if p(x) then [x] else []
  {
    assert [x][1..] == [];
  }

  /** Inserting `x` moves it past elements of smaller key only, so among the elements of any
      one key it stays in front. */
  lemma {:induction false} InsertByKeyStable<T(!new)>(x: T, s: seq<T>, key: T -> int, k: int)
    ensures Filter(InsertByKey(x, s, key), KeyIs(key, k)) == Filter([x] + s, KeyIs(key, k))
  {
    var p := KeyIs(key, k);
    if s != [] && key(x) > key(s[0]) {
      var t := s[1..];
      assert s == [s[0]] + t;
      InsertByKeyStable(x, t, key, k);
      FilterConcat([s[0]], InsertByKey(x, t, key), p);
      FilterConcat([x], t, p);
      FilterConcat([s[0]], t, p);
      FilterConcat([x], s, p);
      FilterSingleton(x, p);
      FilterSingleton(s[0], p);
    }
  }

  /** `SortByKey` is stable: the elements of any one key come out in their input order. */
  lemma {:induction false} SortByKeyStable<T(!new)>(s: seq<T>, key: T -> int, k: int)
    ensures Filter(SortByKey(s, key), KeyIs(key, k)) == Filter(s, KeyIs(key, k))
  {
    if s != [] {
      var p := KeyIs(key, k);
      var rest := SortByKey(s[1..], key);
      assert s == [s[0]] + s[1..];
      SortByKeyStable(s[1..], key, k);
      InsertByKeyStable(s[0], rest, key, k);
      FilterConcat([s[0]], rest, p);
      FilterConcat([s[0]], s[1..], p);
    }
  }

  /** Strictly increasing in the default string order. */
  ghost predicate StrictlySorted(s: seq<string>) {
    forall i, j :: 0 <= i < j < |s| ==> Less(s[i], s[j])
  }

  /** Insert `x` in front of the first element that is not smaller. */
  function InsertString(x: string, s: seq<string>): (r: seq<string>)
    ensures multiset(r) == multiset(s) + multiset{x}
    ensures forall y :: y in r ==> y == x || y in s
  {
    if s == [] then [x]
    else if !Less(s[0], x) then [x] + s
    else
      assert s == [s[0]] + s[1..];
      [s[0]] + InsertString(x, s[1..])
  }

  lemma {:induction false} InsertStringSorted(x: string, s: seq<string>)
    requires StrictlySorted(s) && x !in s
    ensures StrictlySorted(InsertString(x, s))
  {
    if s == [] {
    } else if !Less(s[0], x) {
      LessTotal(x, s[0]);
      var r := [x] + s;
      forall i, j | 0 <= i < j < |r| ensures Less(r[i], r[j]) {
        if i == 0 {
          if j > 1 {
            LessTransitive(x, s[0], s[j - 1]);
          }
        } else {
          assert r[i] == s[i - 1] && r[j] == s[j - 1];
        }
      }
    } else {
      var rest := InsertString(x, s[1..]);
      InsertStringSorted(x, s[1..]);
      var r := [s[0]] + rest;
      forall i, j | 0 <= i < j < |r| ensures Less(r[i], r[j]) {
        if i == 0 {
          assert r[j] in rest;
          if r[j] != x {
            assert r[j] in s[1..];
          }
        } else {
          assert r[i] == rest[i - 1] && r[j] == rest[j - 1];
        }
      }
    }
  }

  /** The default `sort()` of a duplicate-free array of strings. */
  function SortStrings(s: seq<string>): (r: seq<string>)
    requires NoDup(s)
    ensures StrictlySorted(r)
    ensures multiset(r) == multiset(s)
  {
    if s == [] then []
    else
      assert s == [s[0]] + s[1..];
      assert NoDup(s[1..]);
      var rest := SortStrings(s[1..]);
      assert s[0] !in s[1..];
      assert s[0] !in rest by {
        assert multiset(rest)[s[0]] == multiset(s[1..])[s[0]];
      }
      InsertStringSorted(s[0], rest);
      InsertString(s[0], rest)
  }
}
