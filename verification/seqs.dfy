/** Generic sequence operations: filtering, summing, and removing one occurrence. */
module Seqs {

  function Filter<T(!new)>(s: seq<T>, keep: T -> bool): (r: seq<T>)
    ensures |r| <= |s|
    ensures forall x :: x in r <==> x in s && keep(x)
    decreases |s|
  {
    if |s| == 0 then []
    else Filter(s[..|s| - 1], keep) + (if keep(s[|s| - 1]) then [s[|s| - 1]] else [])
  }

  /** Filtering a non-empty sequence: filter all but the last, then the last if it is kept. */
  lemma FilterStep<T(!new)>(s: seq<T>, keep: T -> bool)
    requires 0 < |s|
    ensures Filter(s, keep) == Filter(s[..|s| - 1], keep) + (if keep(s[|s| - 1]) then [s[|s| - 1]] else [])
  {
  }

  /** Filtering distributes over concatenation. */
  lemma {:induction false} FilterConcat<T(!new)>(a: seq<T>, b: seq<T>, keep: T -> bool)
    ensures Filter(a + b, keep) == Filter(a, keep) + Filter(b, keep)
    decreases |b|
  {
    if |b| == 0 {
      assert a + b == a;
    } else {
      var init, last := b[..|b| - 1], b[|b| - 1];
      FilterConcat(a, init, keep);
      SnocSplit(a, b);
      FilterSnoc(a + init, last, keep);
      FilterSnoc(init, last, keep);
      AppendAssoc(Filter(a, keep), Filter(init, keep), if keep(last) then [last] else []);
    }
  }

  lemma SnocSplit<T>(a: seq<T>, b: seq<T>)
    requires 0 < |b|
    ensures b == b[..|b| - 1] + [b[|b| - 1]]
    ensures a + b == (a + b[..|b| - 1]) + [b[|b| - 1]]
  {
  }

  lemma FilterSnoc<T(!new)>(init: seq<T>, last: T, keep: T -> bool)
    ensures Filter(init + [last], keep) == Filter(init, keep) + (if keep(last) then [last] else [])
  {
    assert (init + [last])[..|init|] == init;
  }

  lemma AppendAssoc<T>(x: seq<T>, y: seq<T>, z: seq<T>)
    ensures (x + y) + z == x + (y + z)
  {
  }

  /** Nothing kept means an empty result. */
  lemma FilterEmpty<T(!new)>(s: seq<T>, keep: T -> bool)
    requires forall i :: 0 <= i < |s| ==> !keep(s[i])
    ensures Filter(s, keep) == []
  {
  }

  /** The sum of f over the elements of s. */
  function Sum<T>(s: seq<T>, f: T -> int): int
    decreases |s|
  {
    if |s| == 0 then 0 else Sum(s[..|s| - 1], f) + f(s[|s| - 1])
  }

  lemma SumStep<T>(s: seq<T>, f: T -> int)
    requires 0 < |s|
    ensures Sum(s, f) == Sum(s[..|s| - 1], f) + f(s[|s| - 1])
  {
  }

  /** The number of elements of s satisfying p. */
  function Count<T>(s: seq<T>, p: T -> bool): (n: nat)
    ensures n <= |s|
    decreases |s|
  {
    if |s| == 0 then 0 else Count(s[..|s| - 1], p) + (if p(s[|s| - 1]) then 1 else 0)
  }

  lemma {:induction false} SumConcat<T>(a: seq<T>, b: seq<T>, f: T -> int)
    ensures Sum(a + b, f) == Sum(a, f) + Sum(b, f)
    decreases |b|
  {
    if |b| == 0 {
      assert a + b == a;
    } else {
      assert (a + b)[..|a + b| - 1] == a + b[..|b| - 1];
      SumConcat(a, b[..|b| - 1], f);
    }
  }

  lemma {:induction false} CountConcat<T>(a: seq<T>, b: seq<T>, p: T -> bool)
    ensures Count(a + b, p) == Count(a, p) + Count(b, p)
    decreases |b|
  {
    if |b| == 0 {
      assert a + b == a;
    } else {
      assert (a + b)[..|a + b| - 1] == a + b[..|b| - 1];
      CountConcat(a, b[..|b| - 1], p);
    }
  }

  /** Summing does not depend on the order of the elements. */
  lemma {:induction false} SumPermutation<T>(a: seq<T>, b: seq<T>, f: T -> int)
    requires multiset(a) == multiset(b)
    ensures Sum(a, f) == Sum(b, f)
    decreases |a|
  {
    if |a| != 0 {
      var x := a[|a| - 1];
      assert a == a[..|a| - 1] + [x];
      assert x in multiset(b);
      var i :| 0 <= i < |b| && b[i] == x;
      var rest := b[..i] + b[i + 1..];
      assert b == b[..i] + [x] + b[i + 1..];
      assert multiset(a) == multiset(a[..|a| - 1]) + multiset{x};
      assert multiset(b) == multiset(b[..i]) + multiset{x} + multiset(b[i + 1..]);
      assert multiset(rest) == multiset(b[..i]) + multiset(b[i + 1..]);
      assert multiset(a[..|a| - 1]) == multiset(a) - multiset{x};
      assert multiset(rest) == multiset(b) - multiset{x};
      SumPermutation(a[..|a| - 1], rest, f);
      SumConcat(b[..i] + [x], b[i + 1..], f);
      SumConcat(b[..i], [x], f);
      SumConcat(b[..i], b[i + 1..], f);
      assert [x][..0] == [];
    } else {
      assert |b| == 0;
    }
  }

  /** Filtering then summing equals summing the kept elements' values. */
  lemma {:induction false} SumFilter<T(!new)>(s: seq<T>, keep: T -> bool, f: T -> int)
    ensures Sum(Filter(s, keep), f) == Sum(s, x => if keep(x) then f(x) else 0)
    decreases |s|
  {
    if |s| != 0 {
      SumFilter(s[..|s| - 1], keep, f);
      SumConcat(Filter(s[..|s| - 1], keep), if keep(s[|s| - 1]) then [s[|s| - 1]] else [], f);
    }
  }

  /** `s.indexOf(x)`: the position of the first occurrence of x, or -1 when there is none. */
  function IndexOf<T(==)>(s: seq<T>, x: T): (i: int)
    ensures -1 <= i && (i == -1 <==> x !in s)
    ensures 0 <= i ==> i < |s| && s[i] == x && x !in s[..i]
    decreases |s|
  {
    if |s| == 0 then -1
    else if s[0] == x then 0
    else
      var j := IndexOf(s[1..], x);
      if j == -1 then -1
      else
        assert s[..j + 1] == [s[0]] + s[1..][..j];
        j + 1
  }

  /** How many times the filter keeps each value: every copy of a kept value, no copy of a dropped one. */
  lemma {:induction false} FilterMultiset<T(!new)>(s: seq<T>, keep: T -> bool, y: T)
    ensures multiset(Filter(s, keep))[y] == if keep(y) then multiset(s)[y] else 0
    decreases |s|
  {
    if |s| != 0 {
      FilterMultiset(s[..|s| - 1], keep, y);
      assert s == s[..|s| - 1] + [s[|s| - 1]];
    }
  }

  /** `splice(indexOf(x), 1)`: the sequence without its first occurrence of x. */
  function RemoveFirst<T(==)>(s: seq<T>, x: T): (r: seq<T>)
    ensures x in s ==> multiset(r) == multiset(s) - multiset{x} && |r| == |s| - 1
    ensures x !in s ==> r == s
    decreases |s|
  {
    if |s| == 0 then []
    else if s[0] == x then assert s == [s[0]] + s[1..]; s[1..]
    else assert s == [s[0]] + s[1..]; [s[0]] + RemoveFirst(s[1..], x)
  }

  /** Removing the first occurrence is splicing out the element at `indexOf`. */
  lemma {:induction false} RemoveFirstIsSplice<T>(s: seq<T>, x: T)
    requires x in s
    ensures 0 <= IndexOf(s, x) < |s|
    ensures RemoveFirst(s, x) == s[..IndexOf(s, x)] + s[IndexOf(s, x) + 1..]
    decreases |s|
  {
    if s[0] == x {
      SpliceHead(s, x);
    } else {
      InTail(s, x);
      RemoveFirstIsSplice(s[1..], x);
      SpliceStep(s, x, IndexOf(s[1..], x));
    }
  }

  lemma SpliceHead<T>(s: seq<T>, x: T)
    requires 0 < |s| && s[0] == x
    ensures IndexOf(s, x) == 0
    ensures RemoveFirst(s, x) == s[..0] + s[1..]
  {
    assert s[..0] + s[1..] == s[1..];
  }

  lemma InTail<T>(s: seq<T>, x: T)
    requires x in s && s[0] != x
    ensures x in s[1..]
  {
    var k :| 0 <= k < |s| && s[k] == x;
    assert s[1..][k - 1] == x;
  }

  /** One step of the splice: the first element differs from x, and the tail is already a splice at j. */
  lemma SpliceStep<T>(s: seq<T>, x: T, j: int)
    requires 0 < |s| && s[0] != x && 0 <= j < |s| - 1
    requires IndexOf(s[1..], x) == j
    requires RemoveFirst(s[1..], x) == s[1..][..j] + s[1..][j + 1..]
    ensures IndexOf(s, x) == j + 1
    ensures RemoveFirst(s, x) == s[..j + 1] + s[j + 2..]
  {
    assert RemoveFirst(s, x) == [s[0]] + RemoveFirst(s[1..], x);
    SpliceCons(s, j);
  }

  lemma SpliceCons<T>(s: seq<T>, j: nat)
    requires j + 1 < |s|
    ensures [s[0]] + (s[1..][..j] + s[1..][j + 1..]) == s[..j + 1] + s[j + 2..]
  {
    assert s[..j + 1] == [s[0]] + s[1..][..j];
    assert s[j + 2..] == s[1..][j + 1..];
  }

  /** Counting does not depend on the order of the elements. */
  lemma {:induction false} CountPermutation<T>(a: seq<T>, b: seq<T>, p: T -> bool)
    requires multiset(a) == multiset(b)
    ensures Count(a, p) == Count(b, p)
  {
    CountIsSum(a, p);
    CountIsSum(b, p);
    SumPermutation(a, b, x => if p(x) then 1 else 0);
  }

  lemma {:induction false} CountIsSum<T>(s: seq<T>, p: T -> bool)
    ensures Count(s, p) == Sum(s, x => if p(x) then 1 else 0)
    decreases |s|
  {
    if |s| != 0 {
      CountIsSum(s[..|s| - 1], p);
    }
  }

  /** `order` visits every key of the map exactly once, as a Go `range` over the map does. */
  ghost predicate IsEnumeration<K, V>(order: seq<K>, m: map<K, V>) {
    && (forall i, j :: 0 <= i < j < |order| ==> order[i] != order[j])
    && (forall k :: k in order ==> k in m)
    && (forall k :: k in m ==> k in order)
  }

  /** f applied to the values of m at the keys of `order`, in that order. */
  function MapValues<K, V, R>(m: map<K, V>, order: seq<K>, f: V -> R): (r: seq<R>)
    requires forall k :: k in order ==> k in m
    ensures |r| == |order|
    ensures forall i :: 0 <= i < |order| ==> r[i] == f(m[order[i]])
    decreases |order|
  {
    if |order| == 0 then [] else [f(m[order[0]])] + MapValues(m, order[1..], f)
  }

  lemma MapValuesConcat<K, V, R>(m: map<K, V>, a: seq<K>, b: seq<K>, f: V -> R)
    requires forall k :: k in a ==> k in m
    requires forall k :: k in b ==> k in m
    ensures MapValues(m, a + b, f) == MapValues(m, a, f) + MapValues(m, b, f)
  {
  }

  /** Removing the element at j takes exactly one copy of it out of the multiset. */
  lemma RemoveAt<T>(s: seq<T>, j: nat)
    requires j < |s|
    ensures multiset(s[..j] + s[j + 1..]) == multiset(s) - multiset{s[j]}
  {
    assert s == s[..j] + [s[j]] + s[j + 1..];
  }

  /** Inserting a key anywhere adds its value to the multiset of values. */
  lemma MapValuesInsert<K, V, R>(m: map<K, V>, pre: seq<K>, k: K, post: seq<K>, f: V -> R)
    requires forall x :: x in pre + ([k] + post) ==> x in m
    ensures forall x :: x in pre + post ==> x in m
    ensures multiset(MapValues(m, pre + ([k] + post), f)) == multiset(MapValues(m, pre + post, f)) + multiset{f(m[k])}
  {
    forall x | x in pre + post ensures x in m {
      assert x in pre + ([k] + post);
    }
    forall x | x in pre ensures x in m { assert x in pre + ([k] + post); }
    forall x | x in post ensures x in m { assert x in pre + ([k] + post); }
    MapValuesConcat(m, pre, [k] + post, f);
    MapValuesConcat(m, pre, post, f);
    assert MapValues(m, [k] + post, f) == [f(m[k])] + MapValues(m, post, f);
  }

  /** Taking the first element of one and its occurrence at j out of the other keeps two permutations permuted. */
  lemma PermutedTails<T>(a: seq<T>, b: seq<T>, j: nat)
    requires multiset(a) == multiset(b) && 0 < |a| && j < |b| && b[j] == a[0]
    ensures multiset(a[1..]) == multiset(b[..j] + b[j + 1..])
  {
    RemoveAt(b, j);
    assert a == [a[0]] + a[1..];
  }

  /** Permuted keys give permuted values. */
  lemma {:induction false} MapValuesPermute<K, V, R>(m: map<K, V>, order1: seq<K>, order2: seq<K>, f: V -> R)
    requires forall k :: k in order1 ==> k in m
    requires forall k :: k in order2 ==> k in m
    requires multiset(order1) == multiset(order2)
    ensures multiset(MapValues(m, order1, f)) == multiset(MapValues(m, order2, f))
    decreases |order1|
  {
    if |order1| != 0 {
      assert order1[0] in multiset(order2);
      var j :| 0 <= j < |order2| && order2[j] == order1[0];
      PermutedTails(order1, order2, j);
      var rest2 := order2[..j] + order2[j + 1..];
      assert forall k :: k in rest2 ==> k in m by { SpliceKeys(m, order2, j); }
      MapValuesPermute(m, order1[1..], rest2, f);
      MapValuesPermuteStep(m, order1, order2, j, f);
    }
  }

  lemma SpliceKeys<K, V>(m: map<K, V>, s: seq<K>, j: nat)
    requires j < |s| && forall k :: k in s ==> k in m
    ensures forall k :: k in s[..j] + s[j + 1..] ==> k in m
  {
    forall k | k in s[..j] + s[j + 1..] ensures k in m {
      assert k in s[..j] || k in s[j + 1..];
    }
  }

  /** The step of `MapValuesPermute`: the first key of one order sits at j in the other. */
  lemma MapValuesPermuteStep<K, V, R>(m: map<K, V>, order1: seq<K>, order2: seq<K>, j: nat, f: V -> R)
    requires 0 < |order1| && j < |order2| && order2[j] == order1[0]
    requires forall k :: k in order1 ==> k in m
    requires forall k :: k in order2 ==> k in m
    requires forall k :: k in order2[..j] + order2[j + 1..] ==> k in m
    requires multiset(MapValues(m, order1[1..], f)) == multiset(MapValues(m, order2[..j] + order2[j + 1..], f))
    ensures multiset(MapValues(m, order1, f)) == multiset(MapValues(m, order2, f))
  {
    var v := f(m[order1[0]]);
    var rest2 := order2[..j] + order2[j + 1..];
    MapValuesRemoveAt(m, order2, j, f);
    assert MapValues(m, order1, f) == [v] + MapValues(m, order1[1..], f);
    ConsPermute(MapValues(m, order1, f), MapValues(m, order2, f), MapValues(m, order1[1..], f), MapValues(m, rest2, f), v);
  }

  lemma ConsPermute<R>(x: seq<R>, y: seq<R>, tx: seq<R>, ty: seq<R>, v: R)
    requires x == [v] + tx && multiset(y) == multiset(ty) + multiset{v} && multiset(tx) == multiset(ty)
    ensures multiset(x) == multiset(y)
  {
  }

  /** Taking the key at j out of the order takes its value out of the multiset of values. */
  lemma MapValuesRemoveAt<K, V, R>(m: map<K, V>, s: seq<K>, j: nat, f: V -> R)
    requires j < |s| && forall k :: k in s ==> k in m
    ensures forall k :: k in s[..j] + s[j + 1..] ==> k in m
    ensures multiset(MapValues(m, s, f)) == multiset(MapValues(m, s[..j] + s[j + 1..], f)) + multiset{f(m[s[j]])}
  {
    SpliceKeys(m, s, j);
    assert s == s[..j] + ([s[j]] + s[j + 1..]);
    MapValuesInsert(m, s[..j], s[j], s[j + 1..], f);
  }
}
