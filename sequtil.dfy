/** Operations on JavaScript arrays and insertion-ordered sets, modelled as sequences. */
module SeqUtil {

  /** A sequence with no repeated element: the contents of a JavaScript `Set` in insertion order. */
  predicate NoDup<T(==)>(s: seq<T>) {
    forall i, j :: 0 <= i < j < |s| ==> s[i] != s[j]
  }

  /** `Array.prototype.findIndex`: the first index whose element satisfies `p`, or -1. */
  function FindIndex<T>(s: seq<T>, p: T -> bool): (r: int)
    ensures -1 <= r < |s|
    ensures r == -1 <==> forall i :: 0 <= i < |s| ==> !p(s[i])
    ensures r != -1 ==> p(s[r]) && forall j :: 0 <= j < r ==> !p(s[j])
  {
    if s == [] then -1
    else if p(s[0]) then 0
    else
      var k := FindIndex(s[1..], p);
      if k == -1 then -1 else k + 1
  }

  /** `Array.prototype.filter`. */
  function Filter<T(!new)>(s: seq<T>, p: T -> bool): (r: seq<T>)
    ensures |r| <= |s|
    ensures forall x :: x in r <==> x in s && p(x)
    ensures multiset(r) <= multiset(s)
    ensures (forall i :: 0 <= i < |s| ==> p(s[i])) ==> r == s
  {
    if s == [] then []
    else
      assert s == [s[0]] + s[1..];
      if p(s[0]) then [s[0]] + Filter(s[1..], p) else Filter(s[1..], p)
  }

  /** Filtering distributes over concatenation, so the kept elements stay in their original order. */
  lemma {:induction false} FilterConcat<T(!new)>(a: seq<T>, b: seq<T>, p: T -> bool)
    ensures Filter(a + b, p) == Filter(a, p) + Filter(b, p)
  {
    if a == [] {
      assert a + b == b;
    } else {
      assert (a + b)[1..] == a[1..] + b;
      FilterConcat(a[1..], b, p);
    }
  }

  /** Filtering a sequence with one more element at the end. */
  lemma FilterSnoc<T(!new)>(s: seq<T>, x: T, p: T -> bool)
    ensures Filter(s + [x], p) == Filter(s, p) + (if p(x) then [x] else [])
  {
    FilterConcat(s, [x], p);
    assert [x][1..] == [];
  }

  /** Filtering keeps a duplicate-free sequence duplicate-free. */
  lemma {:induction false} FilterNoDup<T(!new)>(s: seq<T>, p: T -> bool)
    requires NoDup(s)
    ensures NoDup(Filter(s, p))
  {
    if s != [] {
      assert NoDup(s[1..]);
      FilterNoDup(s[1..], p);
      assert s[0] !in s[1..];
    }
  }

  /** Delete every occurrence of `x` (`Set.prototype.delete`, `tags.filter(t => t !== x)`). */
  function Remove<T(==)>(s: seq<T>, x: T): (r: seq<T>)
    ensures x !in r
    ensures |r| <= |s|
    ensures x !in s ==> r == s
  {
    if s == [] then []
    else
      assert s == [s[0]] + s[1..];
      var rest := Remove(s[1..], x);
      if s[0] == x then rest else [s[0]] + rest
  }

  /** What `Remove` keeps: every element other than `x`, each as often as before; so a
      duplicate-free sequence stays duplicate-free. */
  lemma {:induction false} RemoveSpec<T(!new)>(s: seq<T>, x: T)
    ensures forall y :: y in Remove(s, x) <==> y in s && y != x
    ensures multiset(Remove(s, x)) == multiset(s)[x := 0]
    ensures NoDup(s) ==> NoDup(Remove(s, x))
    decreases |s|
  {
    if s != [] {
      assert s == [s[0]] + s[1..];
      RemoveSpec(s[1..], x);
      NoDupMultiset(s);
      NoDupMultiset(Remove(s, x));
    }
  }

  /** Removal distributes over concatenation: the remaining elements keep their order. */
  lemma {:induction false} RemoveConcat<T(!new)>(a: seq<T>, b: seq<T>, x: T)
    ensures Remove(a + b, x) == Remove(a, x) + Remove(b, x)
  {
    if a == [] {
      assert a + b == b;
    } else {
      assert (a + b)[1..] == a[1..] + b;
      RemoveConcat(a[1..], b, x);
    }
  }

  /** Appending an element that was absent and then removing it gives back the original sequence. */
  lemma RemoveAppended<T(!new)>(s: seq<T>, x: T)
    requires x !in s
    ensures Remove(s + [x], x) == s
  {
    RemoveConcat(s, [x], x);
    assert Remove([x], x) == [];
  }

  /** Removing an element that occurs exactly once, between two runs that do not hold it. */
  lemma RemoveMiddle<T(!new)>(a: seq<T>, x: T, b: seq<T>)
    requires x !in a && x !in b
    ensures Remove(a + [x] + b, x) == a + b
  {
    RemoveConcat(a + [x], b, x);
    RemoveAppended(a, x);
  }

  /** `Set.prototype.add` on an insertion-ordered set; also `if (!a.includes(x)) a.push(x)`. */
  function AddIfAbsent<T(==,!new)>(s: seq<T>, x: T): (r: seq<T>)
    ensures forall y :: y in r <==> y in s || y == x
    ensures |s| <= |r| <= |s| + 1 && r[..|s|] == s
    ensures NoDup(s) ==> NoDup(r) && multiset(r)[x] == 1
  {
    if x in s then
      NoDupMultiset(s);
      s
    else
      s + [x]
  }

  /** Appending an element not yet present keeps a list duplicate-free. */
  lemma NoDupAppend<T>(s: seq<T>, x: T)
    requires NoDup(s)
    ensures x !in s ==> NoDup(s + [x])
  {
  }

  /** Adding an element twice is the same as adding it once. */
  lemma AddIfAbsentIdempotent<T(!new)>(s: seq<T>, x: T)
    ensures AddIfAbsent(AddIfAbsent(s, x), x) == AddIfAbsent(s, x)
  {
  }

  /** A sequence is duplicate-free exactly when no element occurs twice in its multiset. */
  lemma {:induction false} NoDupMultiset<T>(s: seq<T>)
    ensures NoDup(s) <==> forall x :: multiset(s)[x] <= 1
  {
    if s != [] {
      NoDupMultiset(s[1..]);
      assert s == [s[0]] + s[1..];
      assert multiset(s) == multiset{s[0]} + multiset(s[1..]);
      if NoDup(s) {
        assert NoDup(s[1..]);
        assert s[0] !in s[1..];
      }
      if forall x :: multiset(s)[x] <= 1 {
        forall x ensures multiset(s[1..])[x] <= 1 {
          assert multiset(s)[x] >= multiset(s[1..])[x];
        }
        assert multiset(s)[s[0]] == 1 + multiset(s[1..])[s[0]];
        assert multiset(s[1..])[s[0]] == 0;
        forall i, j | 0 <= i < j < |s| ensures s[i] != s[j] {
          if i == 0 {
            assert s[j] in s[1..];
          } else {
            assert s[i] == s[1..][i - 1] && s[j] == s[1..][j - 1];
          }
        }
      }
    }
  }

  /** Reordering a duplicate-free sequence keeps it duplicate-free. */
  lemma NoDupPermutation<T>(a: seq<T>, b: seq<T>)
    requires NoDup(a) && multiset(a) == multiset(b)
    ensures NoDup(b)
  {
    NoDupMultiset(a);
    NoDupMultiset(b);
  }
}
