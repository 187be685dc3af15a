/**
 * In-order sequences of red-black trees.  A kernel insertion walks left on a
 * smaller key and right otherwise, so a new node lands after every node whose
 * key is not greater; RbTree proves that walk against Rank below.
 */
module Ordered {
  import opened Seqs

  predicate Sorted<T>(key: T -> int, s: seq<T>) {
    forall i, j :: 0 <= i < j < |s| ==> key(s[i]) <= key(s[j])
  }

  /** Number of leading nodes whose key does not exceed k. */
  function Rank<T>(key: T -> int, s: seq<T>, k: int): (r: nat)
    ensures r <= |s|
    ensures forall i :: 0 <= i < r ==> key(s[i]) <= k
    ensures r < |s| ==> k < key(s[r])
  {
    if s == [] || key(s[0]) > k then 0
    else
      var r := Rank(key, s[1..], k);
      assert forall i :: 1 <= i < 1 + r ==> s[i] == s[1..][i - 1];
      1 + r
  }

  function Insert<T>(key: T -> int, s: seq<T>, x: T): seq<T> {
    var r := Rank(key, s, key(x));
    s[..r] + [x] + s[r..]
  }

  lemma InsertSorted<T>(key: T -> int, s: seq<T>, x: T)
    requires Sorted(key, s)
    ensures Sorted(key, Insert(key, s, x))
    ensures multiset(Insert(key, s, x)) == multiset(s) + multiset{x}
    ensures |Insert(key, s, x)| == |s| + 1
  {
    var r := Rank(key, s, key(x));
    assert s == s[..r] + s[r..];
    SplitSorted(key, s, r, x);
  }

  lemma SplitSorted<T>(key: T -> int, s: seq<T>, r: nat, x: T)
    requires Sorted(key, s) && r <= |s|
    requires r > 0 ==> key(s[r - 1]) <= key(x)
    requires r < |s| ==> key(x) <= key(s[r])
    ensures Sorted(key, s[..r] + [x] + s[r..])
  {
    var t := s[..r] + [x] + s[r..];
    forall i, j | 0 <= i < j < |t|
      ensures key(t[i]) <= key(t[j])
    {
      if j < r {
        assert key(s[i]) <= key(s[j]);
      } else if j == r {
        assert i < r - 1 ==> key(s[i]) <= key(s[r - 1]);
      } else if i < r {
        assert key(s[i]) <= key(s[j - 1]);
      } else if i == r {
        assert r < j - 1 ==> key(s[r]) <= key(s[j - 1]);
      } else {
        assert key(s[i - 1]) <= key(s[j - 1]);
      }
    }
  }

  lemma InsertMembers<T(!new)>(key: T -> int, s: seq<T>, x: T)
    ensures forall y :: y in Insert(key, s, x) <==> y == x || y in s
    ensures NoDup(s) && x !in s ==> NoDup(Insert(key, s, x))
  {
    InsertedMembers(s, Rank(key, s, key(x)), x);
  }

  /** The node is leftmost exactly when every other key is greater. */
  lemma InsertFirst<T>(key: T -> int, s: seq<T>, x: T)
    requires Sorted(key, s)
    ensures Insert(key, s, x)[0] == if s == [] || key(x) < key(s[0]) then x else s[0]
    ensures Rank(key, s, key(x)) == 0 <==> (s == [] || key(x) < key(s[0]))
  {
  }

  lemma {:induction false} RemoveSorted<T(!new)>(key: T -> int, s: seq<T>, x: T)
    requires Sorted(key, s)
    ensures Sorted(key, Remove(s, x))
    ensures forall y :: y in Remove(s, x) ==> y in s
  {
    if s != [] && s[0] != x {
      RemoveSorted(key, s[1..], x);
      var r := Remove(s[1..], x);
      forall j | 0 <= j < |r|
        ensures key(s[0]) <= key(r[j])
      {
        assert r[j] in r && r[j] in s[1..];
        var k :| 0 <= k < |s[1..]| && s[1..][k] == r[j];
        assert s[k + 1] == r[j];
      }
    }
  }

  /** The rank depends only on the order of the keys. */
  lemma {:induction false} RankUnique<T>(key: T -> int, s: seq<T>, k: int, r: nat)
    requires r <= |s|
    requires forall i :: 0 <= i < r ==> key(s[i]) <= k
    requires r < |s| ==> k < key(s[r])
    ensures Rank(key, s, k) == r
  {
    if s != [] && r > 0 {
      assert s[0] == s[0..][0] && key(s[0]) <= k;
      assert forall i :: 0 <= i < r - 1 ==> s[1..][i] == s[i + 1];
      RankUnique(key, s[1..], k, r - 1);
    }
  }
}
