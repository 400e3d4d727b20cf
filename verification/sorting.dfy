/** Sorting by an integer key, and the uniqueness of sorted orders when keys are distinct. */
module Sorting {
  import Seqs

  predicate SortedDesc<T>(s: seq<T>, key: T -> int) {
    forall i, j :: 0 <= i < j < |s| ==> key(s[i]) >= key(s[j])
  }

  predicate SortedAsc<T>(s: seq<T>, key: T -> int) {
    forall i, j :: 0 <= i < j < |s| ==> key(s[i]) <= key(s[j])
  }

  /** Inserts x in front of the first element whose key does not exceed key(x). */
  function Insert<T>(x: T, s: seq<T>, key: T -> int): (r: seq<T>)
    requires SortedDesc(s, key)
    ensures SortedDesc(r, key)
    ensures multiset(r) == multiset(s) + multiset{x}
    ensures |r| == |s| + 1
    ensures r[0] == x || (0 < |s| && r[0] == s[0])
    decreases |s|
  {
    if |s| == 0 then [x]
    else if key(x) >= key(s[0]) then [x] + s
    else
      assert s == [s[0]] + s[1..];
      var rest := Insert(x, s[1..], key);
      assert key(s[0]) >= key(rest[0]);
      ConsSorted(s[0], rest, key);
      [s[0]] + rest
  }

  /** A head whose key is at least the first key of a descending sequence keeps it descending. */
  lemma ConsSorted<T>(h: T, rest: seq<T>, key: T -> int)
    requires SortedDesc(rest, key)
    requires 0 < |rest| ==> key(h) >= key(rest[0])
    ensures SortedDesc([h] + rest, key)
  {
    var r := [h] + rest;
    forall i, j | 0 <= i < j < |r|
      ensures key(r[i]) >= key(r[j])
    {
      if i == 0 {
        assert r[j] == rest[j - 1];
        assert key(rest[0]) >= key(rest[j - 1]);
      } else {
        assert r[i] == rest[i - 1] && r[j] == rest[j - 1];
      }
    }
  }

  /** Insertion sort, largest key first. */
  function SortDesc<T>(s: seq<T>, key: T -> int): (r: seq<T>)
    ensures SortedDesc(r, key)
    ensures multiset(r) == multiset(s)
    ensures |r| == |s|
    decreases |s|
  {
    if |s| == 0 then []
    else
      assert s == [s[0]] + s[1..];
      Insert(s[0], SortDesc(s[1..], key), key)
  }

  /** Smallest key first. */
  function SortAsc<T>(s: seq<T>, key: T -> int): (r: seq<T>)
    ensures SortedAsc(r, key)
    ensures multiset(r) == multiset(s)
    ensures |r| == |s|
  {
    SortDesc(s, x => -key(x))
  }

  /** Distinct keys among the elements of s. */
  predicate KeysDistinct<T(==)>(s: seq<T>, key: T -> int) {
    forall i, j :: 0 <= i < |s| && 0 <= j < |s| && key(s[i]) == key(s[j]) ==> s[i] == s[j]
  }

  /** In a descending sequence the first element has the largest key. */
  lemma HeadIsMax<T>(a: seq<T>, key: T -> int, x: T)
    requires SortedDesc(a, key) && x in multiset(a)
    ensures key(a[0]) >= key(x)
  {
    var k :| 0 <= k < |a| && a[k] == x;
  }

  lemma TailMultiset<T>(a: seq<T>, b: seq<T>)
    requires 0 < |a| && 0 < |b| && a[0] == b[0] && multiset(a) == multiset(b)
    ensures multiset(a[1..]) == multiset(b[1..])
  {
    assert a == [a[0]] + a[1..] && b == [b[0]] + b[1..];
    assert multiset(a[1..]) == multiset(a) - multiset{a[0]};
    assert multiset(b[1..]) == multiset(b) - multiset{b[0]};
  }

  lemma TailKeysDistinct<T>(a: seq<T>, key: T -> int)
    requires 0 < |a| && KeysDistinct(a, key)
    ensures KeysDistinct(a[1..], key)
  {
    var a' := a[1..];
    forall i, j | 0 <= i < |a'| && 0 <= j < |a'| && key(a'[i]) == key(a'[j])
      ensures a'[i] == a'[j]
    {
      assert a'[i] == a[i + 1] && a'[j] == a[j + 1];
    }
  }

  /**
   * When keys are distinct, a sequence has only one descending order: any two
   * sorted permutations of it are equal, whatever order the input came in.
   */
  lemma {:induction false} SortedDescUnique<T>(a: seq<T>, b: seq<T>, key: T -> int)
    requires multiset(a) == multiset(b)
    requires SortedDesc(a, key) && SortedDesc(b, key)
    requires KeysDistinct(a, key)
    ensures a == b
    decreases |a|
  {
    assert |a| == |multiset(a)| == |multiset(b)| == |b|;
    if |a| != 0 {
      HeadIsMax(a, key, b[0]);
      HeadIsMax(b, key, a[0]);
      var k :| 0 <= k < |a| && a[k] == b[0];
      assert key(a[0]) == key(a[k]);
      assert a[0] == b[0];
      TailMultiset(a, b);
      TailKeysDistinct(a, key);
      SortedDescUnique(a[1..], b[1..], key);
      assert a == [a[0]] + a[1..] && b == [b[0]] + b[1..];
    }
  }

  /** Inputs that are permutations of each other, with no two elements sharing a key, sort to the same sequence. */
  lemma SortDescDeterministic<T>(a: seq<T>, b: seq<T>, key: T -> int)
    requires multiset(a) == multiset(b)
    requires forall x, y :: x in a && y in a && key(x) == key(y) ==> x == y
    ensures SortDesc(a, key) == SortDesc(b, key)
  {
    var sa, sb := SortDesc(a, key), SortDesc(b, key);
    forall i, j | 0 <= i < |sa| && 0 <= j < |sa| && key(sa[i]) == key(sa[j])
      ensures sa[i] == sa[j]
    {
      assert sa[i] in multiset(a) && sa[j] in multiset(a);
    }
    SortedDescUnique(sa, sb, key);
  }

  /** The test "has key k". */
  function HasKey<T>(key: T -> int, k: int): T -> bool {
    x => key(x) == k
  }

  /** The elements of s whose key is k, in their order in s. */
  function Ties<T(!new)>(s: seq<T>, key: T -> int, k: int): seq<T> {
    Seqs.Filter(s, HasKey(key, k))
  }

  /** The ties of a non-empty sequence: its head if it has the key, then the ties of its tail. */
  lemma TiesCons<T(!new)>(s: seq<T>, key: T -> int, k: int)
    requires 0 < |s|
    ensures Ties(s, key, k) == (if key(s[0]) == k then [s[0]] else []) + Ties(s[1..], key, k)
  {
    Seqs.FilterConcat([s[0]], s[1..], HasKey(key, k));
    assert s == [s[0]] + s[1..];
    assert [s[0]][..0] == [];
  }

  /** Insert puts x after every element with a larger key and before every element with its own key. */
  lemma {:induction false} InsertTies<T(!new)>(x: T, s: seq<T>, key: T -> int, k: int)
    requires SortedDesc(s, key)
    ensures Ties(Insert(x, s, key), key, k) == (if key(x) == k then [x] else []) + Ties(s, key, k)
    decreases |s|
  {
    if |s| == 0 || key(x) >= key(s[0]) {
      assert Insert(x, s, key) == [x] + s;
      TiesFront(x, s, key, k);
    } else {
      InsertTies(x, s[1..], key, k);
      InsertTiesStep(x, s, Insert(x, s[1..], key), key, k);
    }
  }

  lemma TiesFront<T(!new)>(x: T, s: seq<T>, key: T -> int, k: int)
    ensures Ties([x] + s, key, k) == (if key(x) == k then [x] else []) + Ties(s, key, k)
  {
    TiesCons([x] + s, key, k);
    assert ([x] + s)[1..] == s;
  }

  /** The step of InsertTies: x goes behind a head with a larger key. */
  lemma InsertTiesStep<T(!new)>(x: T, s: seq<T>, rest: seq<T>, key: T -> int, k: int)
    requires 0 < |s| && key(x) < key(s[0])
    requires Ties(rest, key, k) == (if key(x) == k then [x] else []) + Ties(s[1..], key, k)
    ensures Ties([s[0]] + rest, key, k) == (if key(x) == k then [x] else []) + Ties(s, key, k)
  {
    TiesFront(s[0], rest, key, k);
    TiesCons(s, key, k);
  }

  /** The sort is stable: elements with equal keys keep their input order. */
  lemma {:induction false} SortDescStable<T(!new)>(s: seq<T>, key: T -> int, k: int)
    ensures Ties(SortDesc(s, key), key, k) == Ties(s, key, k)
    decreases |s|
  {
    if |s| != 0 {
      SortDescStable(s[1..], key, k);
      InsertTies(s[0], SortDesc(s[1..], key), key, k);
      TiesCons(s, key, k);
    }
  }

  /** Two descending sequences with the same ties for every key are equal. */
  lemma {:induction false} SortedTiesUnique<T(!new)>(a: seq<T>, b: seq<T>, key: T -> int)
    requires SortedDesc(a, key) && SortedDesc(b, key)
    requires forall k :: Ties(a, key, k) == Ties(b, key, k)
    ensures a == b
    decreases |a|
  {
    forall y ensures multiset(a)[y] == multiset(b)[y] {
      Seqs.FilterMultiset(a, HasKey(key, key(y)), y);
      Seqs.FilterMultiset(b, HasKey(key, key(y)), y);
      assert Ties(a, key, key(y)) == Ties(b, key, key(y));
    }
    assert multiset(a) == multiset(b);
    assert |a| == |multiset(a)| == |multiset(b)| == |b|;
    if |a| != 0 {
      HeadIsMax(a, key, b[0]);
      HeadIsMax(b, key, a[0]);
      var k0 := key(a[0]);
      TiesCons(a, key, k0);
      TiesCons(b, key, k0);
      assert Ties(a, key, k0)[0] == a[0] && Ties(b, key, k0)[0] == b[0];
      forall k ensures Ties(a[1..], key, k) == Ties(b[1..], key, k) {
        TiesCons(a, key, k);
        TiesCons(b, key, k);
        var h := if key(a[0]) == k then [a[0]] else [];
        assert Ties(a[1..], key, k) == (h + Ties(a[1..], key, k))[|h|..];
        assert Ties(b[1..], key, k) == (h + Ties(b[1..], key, k))[|h|..];
      }
      SortedTiesUnique(a[1..], b[1..], key);
      assert a == [a[0]] + a[1..] && b == [b[0]] + b[1..];
    }
  }

  /**
   * Sorting a sequence, appending more elements and sorting again gives the
   * same result as sorting the unsorted sequence with the elements appended.
   */
  lemma ResortAfterAppend<T(!new)>(v: seq<T>, w: seq<T>, key: T -> int)
    ensures SortDesc(SortDesc(v, key) + w, key) == SortDesc(v + w, key)
  {
    var a, b := SortDesc(SortDesc(v, key) + w, key), SortDesc(v + w, key);
    forall k ensures Ties(a, key, k) == Ties(b, key, k) {
      SortDescStable(SortDesc(v, key) + w, key, k);
      Seqs.FilterConcat(SortDesc(v, key), w, HasKey(key, k));
      SortDescStable(v, key, k);
      Seqs.FilterConcat(v, w, HasKey(key, k));
      SortDescStable(v + w, key, k);
    }
    SortedTiesUnique(a, b, key);
  }
}
