/**
 * Generic list operations behind the source's `filter`, `map`-by-id,
 * `findIndex`/`find`, `includes`-toggles, `reduce` sums and `sort`.
 * Every store collection and every component-level derivation is built from these.
 */
module Seqs {
  import opened Wrappers

  /** `s.filter(keep)`. */
  function Filter<T>(s: seq<T>, keep: T -> bool): (r: seq<T>)
    ensures |r| <= |s|
    ensures forall i :: 0 <= i < |r| ==> r[i] in s && keep(r[i])
    ensures forall i :: 0 <= i < |s| && keep(s[i]) ==> s[i] in r
    decreases |s|
  {
    if s == [] then [] else (if keep(s[0]) then [s[0]] else []) + Filter(s[1..], keep)
  }

  /** Filtering distributes over concatenation, so it keeps the survivors in their original order. */
  lemma {:induction false} FilterConcat<T>(a: seq<T>, b: seq<T>, keep: T -> bool)
    ensures Filter(a + b, keep) == Filter(a, keep) + Filter(b, keep)
    decreases |a|
  {
    if a != [] {
      assert (a + b)[0] == a[0];
      assert (a + b)[1..] == a[1..] + b;
      FilterConcat(a[1..], b, keep);
    } else {
      assert a + b == b;
    }
  }

  /** A filter that rejects nothing returns its input unchanged. */
  lemma {:induction false} FilterKeepsAll<T>(s: seq<T>, keep: T -> bool)
    requires forall i :: 0 <= i < |s| ==> keep(s[i])
    ensures Filter(s, keep) == s
    decreases |s|
  {
    if s != [] {
      FilterKeepsAll(s[1..], keep);
    }
  }

  /** A filter that keeps nothing returns the empty list. */
  lemma {:induction false} FilterRejectsAll<T>(s: seq<T>, keep: T -> bool)
    ensures (forall i :: 0 <= i < |s| ==> !keep(s[i])) ==> Filter(s, keep) == []
    decreases |s|
  {
    if s != [] {
      FilterRejectsAll(s[1..], keep);
    }
  }

  /** A filter keeps its whole input exactly when every element passes. */
  lemma {:induction false} FilterAllIffSameLength<T>(s: seq<T>, keep: T -> bool)
    ensures |Filter(s, keep)| == |s| <==> forall i :: 0 <= i < |s| ==> keep(s[i])
    decreases |s|
  {
    if s != [] {
      FilterAllIffSameLength(s[1..], keep);
      assert forall i :: 1 <= i < |s| ==> s[1..][i - 1] == s[i];
    }
  }

  /** The result of a filter is a sub-multiset of its input. */
  lemma {:induction false} FilterSubMultiset<T>(s: seq<T>, keep: T -> bool)
    ensures multiset(Filter(s, keep)) <= multiset(s)
    decreases |s|
  {
    if s != [] {
      FilterSubMultiset(s[1..], keep);
      assert s == [s[0]] + s[1..];
    }
  }

  /** Two filters whose conditions never hold together pick disjoint parts: their sizes add up to at most the input's. */
  lemma {:induction false} FilterDisjointLength<T>(s: seq<T>, p: T -> bool, q: T -> bool)
    requires forall i :: 0 <= i < |s| ==> !(p(s[i]) && q(s[i]))
    ensures |Filter(s, p)| + |Filter(s, q)| <= |s|
    decreases |s|
  {
    if s != [] {
      FilterDisjointLength(s[1..], p, q);
    }
  }

  /** Removes every element whose key is `k` (the source's `filter(x => x.key !== k)`). */
  function Without<T>(s: seq<T>, key: T -> string, k: string): (r: seq<T>)
    ensures |r| <= |s|
    ensures forall i :: 0 <= i < |r| ==> r[i] in s && key(r[i]) != k
    ensures forall i :: 0 <= i < |s| && key(s[i]) != k ==> s[i] in r
  {
    Filter(s, x => key(x) != k)
  }

  /** `Without` distributes over concatenation. */
  lemma WithoutConcat<T>(a: seq<T>, b: seq<T>, key: T -> string, k: string)
    ensures Without(a + b, key, k) == Without(a, key, k) + Without(b, key, k)
  {
    FilterConcat(a, b, x => key(x) != k);
  }

  /** `Without` keeps keys unique. */
  lemma WithoutUniqueKeys<T>(s: seq<T>, key: T -> string, k: string, idKey: T -> string)
    requires UniqueKeys(s, idKey)
    ensures UniqueKeys(Without(s, key, k), idKey)
  {
    FilterUniqueKeys(s, x => key(x) != k, idKey);
  }

  /** `Without` removes nothing when no element has that key. */
  lemma WithoutAbsent<T>(s: seq<T>, key: T -> string, k: string)
    requires forall i :: 0 <= i < |s| ==> key(s[i]) != k
    ensures Without(s, key, k) == s
  {
    FilterKeepsAll(s, x => key(x) != k);
  }

  /** With unique keys, removing a key that occurs drops exactly one element. */
  lemma {:induction false} WithoutOneKey<T>(s: seq<T>, key: T -> string, k: string)
    requires UniqueKeys(s, key)
    requires k in Keys(s, key)
    ensures |Without(s, key, k)| == |s| - 1
    decreases |s|
  {
    assert s == [s[0]] + s[1..];
    WithoutConcat([s[0]], s[1..], key, k);
    assert [s[0]][1..] == [];
    if key(s[0]) == k {
      WithoutAbsent(s[1..], key, k);
    } else {
      assert k in Keys(s[1..], key);
      WithoutOneKey(s[1..], key, k);
    }
  }

  /**
   * `s.map(x => key(x) === k ? apply(x, patch) : x)`: the merge-by-key of the
   * store's `update*` actions.
   */
  function UpdateWhere<T, P>(s: seq<T>, key: T -> string, k: string, apply: (T, P) -> T, patch: P): (r: seq<T>)
    ensures |r| == |s|
    ensures forall i :: 0 <= i < |s| && key(s[i]) == k ==> r[i] == apply(s[i], patch)
    ensures forall i :: 0 <= i < |s| && key(s[i]) != k ==> r[i] == s[i]
  {
    seq(|s|, i requires 0 <= i < |s| => if key(s[i]) == k then apply(s[i], patch) else s[i])
  }

  /** An update whose key matches nothing is a no-op. */
  lemma UpdateAbsent<T, P>(s: seq<T>, key: T -> string, k: string, apply: (T, P) -> T, patch: P)
    requires forall i :: 0 <= i < |s| ==> key(s[i]) != k
    ensures UpdateWhere(s, key, k, apply, patch) == s
  {
  }

  /** `s.map(key)`: the keys of a collection, in order. */
  function Keys<T>(s: seq<T>, key: T -> string): (r: seq<string>)
    ensures |r| == |s|
    ensures forall i :: 0 <= i < |s| ==> r[i] == key(s[i])
  {
    seq(|s|, i requires 0 <= i < |s| => key(s[i]))
  }

  /** No two elements share a key. */
  predicate UniqueKeys<T>(s: seq<T>, key: T -> string) {
    forall i, j :: 0 <= i < j < |s| ==> key(s[i]) != key(s[j])
  }

  /** With unique keys, two positions holding the same key hold the same element. */
  lemma SameKeySameEntry<T>(s: seq<T>, key: T -> string, i: int, j: int)
    requires UniqueKeys(s, key)
    requires 0 <= i < |s| && 0 <= j < |s| && key(s[i]) == key(s[j])
    ensures i == j && s[i] == s[j]
  {
  }

  /** A filter keeps keys unique. */
  lemma {:induction false} FilterUniqueKeys<T>(s: seq<T>, keep: T -> bool, key: T -> string)
    requires UniqueKeys(s, key)
    ensures UniqueKeys(Filter(s, keep), key)
    decreases |s|
  {
    if s != [] {
      var tail := s[1..];
      FilterUniqueKeys(tail, keep, key);
      var ft := Filter(tail, keep);
      forall i | 0 <= i < |ft| ensures key(ft[i]) != key(s[0]) {
        var j :| 0 <= j < |tail| && tail[j] == ft[i];
        assert s[j + 1] == ft[i];
      }
    }
  }

  /** Appending an element whose key is new keeps keys unique. */
  lemma AppendUniqueKeys<T>(s: seq<T>, x: T, key: T -> string)
    requires UniqueKeys(s, key)
    requires key(x) !in Keys(s, key)
    ensures UniqueKeys(s + [x], key)
  {
    forall i | 0 <= i < |s| ensures key(s[i]) != key(x) {
      assert Keys(s, key)[i] == key(s[i]);
    }
  }

  /** An update that never changes keys keeps the list of keys as it was. */
  lemma UpdateKeepsKeys<T, P>(s: seq<T>, key: T -> string, k: string, apply: (T, P) -> T, patch: P)
    requires forall x :: key(apply(x, patch)) == key(x)
    ensures Keys(UpdateWhere(s, key, k, apply, patch), key) == Keys(s, key)
    ensures UniqueKeys(s, key) ==> UniqueKeys(UpdateWhere(s, key, k, apply, patch), key)
  {
    var r := UpdateWhere(s, key, k, apply, patch);
    assert forall i :: 0 <= i < |s| ==> key(r[i]) == key(s[i]);
  }

  /** Two filters in a row keep what one filter by both conditions keeps. */
  lemma {:induction false} FilterTwice<T>(s: seq<T>, p: T -> bool, q: T -> bool, both: T -> bool)
    requires forall x :: both(x) == (p(x) && q(x))
    ensures Filter(Filter(s, p), q) == Filter(s, both)
    decreases |s|
  {
    if s != [] {
      FilterTwice(s[1..], p, q, both);
      var head := if p(s[0]) then [s[0]] else [];
      FilterConcat(head, Filter(s[1..], p), q);
      if p(s[0]) {
        assert head[1..] == [];
      }
    }
  }

  /** `s.filter(y => y !== v)`. */
  function Erase<T(==)>(s: seq<T>, v: T): (r: seq<T>)
    ensures |r| <= |s|
    ensures v !in r
    ensures forall i :: 0 <= i < |r| ==> r[i] in s
    ensures forall i :: 0 <= i < |s| && s[i] != v ==> s[i] in r
    decreases |s|
  {
    if s == [] then [] else (if s[0] != v then [s[0]] else []) + Erase(s[1..], v)
  }

  /** Erasing an absent value returns the list unchanged. */
  lemma {:induction false} EraseAbsent<T>(s: seq<T>, v: T)
    requires v !in s
    ensures Erase(s, v) == s
    decreases |s|
  {
    if s != [] {
      EraseAbsent(s[1..], v);
    }
  }

  /** `Erase` distributes over concatenation: it keeps the other elements in order. */
  lemma {:induction false} EraseConcat<T>(a: seq<T>, b: seq<T>, v: T)
    ensures Erase(a + b, v) == Erase(a, v) + Erase(b, v)
    decreases |a|
  {
    if a != [] {
      assert (a + b)[0] == a[0];
      assert (a + b)[1..] == a[1..] + b;
      EraseConcat(a[1..], b, v);
    } else {
      assert a + b == b;
    }
  }

  /** No value occurs twice. */
  predicate NoDup<T(==)>(s: seq<T>) {
    forall i, j :: 0 <= i < j < |s| ==> s[i] != s[j]
  }

  /** Erasing keeps a duplicate-free list duplicate-free. */
  lemma {:induction false} EraseNoDup<T>(s: seq<T>, v: T)
    requires NoDup(s)
    ensures NoDup(Erase(s, v))
    decreases |s|
  {
    if s != [] {
      EraseNoDup(s[1..], v);
      assert s[0] !in s[1..];
    }
  }

  /** The like/complete/emotion toggle: drop every `x` when present, append it when absent. */
  function Toggle<T(==)>(s: seq<T>, x: T): (r: seq<T>)
    ensures x in r <==> x !in s
    ensures forall i :: 0 <= i < |r| && r[i] != x ==> r[i] in s
    ensures forall i :: 0 <= i < |s| && s[i] != x ==> s[i] in r
  {
    if x in s then Erase(s, x) else s + [x]
  }

  /** Toggling twice restores membership of every value, and restores the list itself when `x` was absent. */
  lemma ToggleTwice<T>(s: seq<T>, x: T)
    ensures forall y :: y in Toggle(Toggle(s, x), x) <==> y in s
    ensures x !in s ==> Toggle(Toggle(s, x), x) == s
  {
    if x !in s {
      EraseConcat(s, [x], x);
      EraseAbsent(s, x);
    }
  }

  /** A toggle keeps a duplicate-free list duplicate-free. */
  lemma ToggleNoDup<T>(s: seq<T>, x: T)
    requires NoDup(s)
    ensures NoDup(Toggle(s, x))
  {
    if x in s {
      EraseNoDup(s, x);
    }
  }

  /** `s.findIndex(p)`: the first index satisfying `p`, or -1. */
  function FindIndex<T>(s: seq<T>, p: T -> bool): (r: int)
    ensures -1 <= r < |s|
    ensures r >= 0 ==> p(s[r]) && forall j :: 0 <= j < r ==> !p(s[j])
    ensures r == -1 <==> forall j :: 0 <= j < |s| ==> !p(s[j])
    decreases |s|
  {
    if s == [] then -1
    else if p(s[0]) then 0
    else
      var k := FindIndex(s[1..], p);
      if k < 0 then -1 else k + 1
  }

  /** `s.find(p)`: the first element satisfying `p`. */
  function Find<T>(s: seq<T>, p: T -> bool): (r: Option<T>)
    ensures r.None? <==> forall j :: 0 <= j < |s| ==> !p(s[j])
    ensures r.Some? ==> exists i :: 0 <= i < |s| && s[i] == r.value && p(s[i]) &&
                                    forall j :: 0 <= j < i ==> !p(s[j])
  {
    var i := FindIndex(s, p);
    if i < 0 then None else Some(s[i])
  }

  /** `s.reduce((acc, x) => acc + f(x), 0)`. */
  function SumOf<T>(s: seq<T>, f: T -> nat): (r: nat)
    ensures s == [] ==> r == 0
    decreases |s|
  {
    if s == [] then 0 else f(s[0]) + SumOf(s[1..], f)
  }

  /** Sums add up over concatenation. */
  lemma {:induction false} SumOfConcat<T>(a: seq<T>, b: seq<T>, f: T -> nat)
    ensures SumOf(a + b, f) == SumOf(a, f) + SumOf(b, f)
    decreases |a|
  {
    if a != [] {
      assert (a + b)[0] == a[0];
      assert (a + b)[1..] == a[1..] + b;
      SumOfConcat(a[1..], b, f);
    } else {
      assert a + b == b;
    }
  }

  /** Every element's share is part of the sum. */
  lemma {:induction false} SumOfBoundsElement<T>(s: seq<T>, f: T -> nat, i: nat)
    requires i < |s|
    ensures f(s[i]) <= SumOf(s, f)
    decreases |s|
  {
    if i > 0 {
      SumOfBoundsElement(s[1..], f, i - 1);
    }
  }

  /** Replacing one element changes the sum by the difference of the two shares. */
  lemma {:induction false} SumOfUpdate<T>(s: seq<T>, f: T -> nat, j: nat, x: T)
    requires j < |s|
    ensures SumOf(s[j := x], f) + f(s[j]) == SumOf(s, f) + f(x)
    decreases |s|
  {
    if j == 0 {
      assert s[j := x][1..] == s[1..];
    } else {
      assert s[j := x][1..] == s[1..][j - 1 := x];
      SumOfUpdate(s[1..], f, j - 1, x);
    }
  }

  /** On a list without repeats, a filter keeps as many elements as there are values in `s` that pass. */
  lemma {:induction false} FilterCountsSet<T>(s: seq<T>, keep: T -> bool, values: set<T>)
    requires NoDup(s)
    requires forall x :: x in values <==> x in s && keep(x)
    ensures |Filter(s, keep)| == |values|
    decreases |s|
  {
    if s != [] {
      assert NoDup(s[1..]) by {
        forall i, j | 0 <= i < j < |s[1..]| ensures s[1..][i] != s[1..][j] {
          assert s[1..][i] == s[i + 1] && s[1..][j] == s[j + 1];
        }
      }
      assert forall x :: x in s <==> x == s[0] || x in s[1..];
      assert s[0] !in s[1..];
      FilterCountsSet(s[1..], keep, values - {s[0]});
      if keep(s[0]) {
        assert values == (values - {s[0]}) + {s[0]};
      } else {
        assert values == values - {s[0]};
      }
    }
  }

  /** Ordered by `key`, largest first. */
  ghost predicate SortedDesc<T>(s: seq<T>, key: T -> int) {
    forall i, j :: 0 <= i < j < |s| ==> key(s[i]) >= key(s[j])
  }

  /** Inserts `x` before the first element whose key is not larger (so equal keys keep their order). */
  function InsertDesc<T>(x: T, s: seq<T>, key: T -> int): (r: seq<T>)
    requires SortedDesc(s, key)
    ensures multiset(r) == multiset(s) + multiset{x}
    ensures SortedDesc(r, key)
    decreases |s|
  {
    if s == [] || key(x) >= key(s[0]) then [x] + s
    else
      var rest := InsertDesc(x, s[1..], key);
      assert s == [s[0]] + s[1..];
      AllAtMost(rest, s[1..], x, key, key(s[0]));
      [s[0]] + rest
  }

  /** Every element of a list made of `s` and `x` is bounded by a bound of both. */
  lemma AllAtMost<T>(r: seq<T>, s: seq<T>, x: T, key: T -> int, b: int)
    requires multiset(r) == multiset(s) + multiset{x}
    requires key(x) <= b
    requires forall i :: 0 <= i < |s| ==> key(s[i]) <= b
    ensures forall i :: 0 <= i < |r| ==> key(r[i]) <= b
  {
    forall i | 0 <= i < |r|
      ensures key(r[i]) <= b
    {
      assert r[i] in multiset(r);
      if r[i] != x {
        assert r[i] in multiset(s);
        var j :| 0 <= j < |s| && s[j] == r[i];
      }
    }
  }

  /**
   * `s.sort((a, b) => key(b) - key(a))`: a stable sort, newest / largest first,
   * as insertion sort.
   */
  function SortDesc<T>(s: seq<T>, key: T -> int): (r: seq<T>)
    ensures multiset(r) == multiset(s)
    ensures |r| == |s|
    ensures SortedDesc(r, key)
    decreases |s|
  {
    if s == [] then []
    else
      assert s == [s[0]] + s[1..];
      InsertDesc(s[0], SortDesc(s[1..], key), key)
  }

  /** Sorting keeps exactly the same elements. */
  lemma SortDescMembers<T>(s: seq<T>, key: T -> int)
    ensures forall x :: x in SortDesc(s, key) <==> x in s
  {
    var r := SortDesc(s, key);
    forall x ensures x in r <==> x in s {
      assert x in r <==> x in multiset(r);
      assert x in s <==> x in multiset(s);
    }
  }
}
