/** Duplicate-free sequences: the model of the kernel's intrusive lists. */
module Seqs {

  datatype Option<+T> = None | Some(value: T)

  predicate NoDup<T(==)>(s: seq<T>) {
    forall i, j :: 0 <= i < j < |s| ==> s[i] != s[j]
  }

  /** Unlink the first occurrence of x (list_del). */
  function Remove<T(==)>(s: seq<T>, x: T): seq<T> {
    if s == [] then [] else if s[0] == x then s[1..] else [s[0]] + Remove(s[1..], x)
  }

  lemma {:induction false} RemoveMultiset<T(!new)>(s: seq<T>, x: T)
    requires x in s
    ensures multiset(Remove(s, x)) == multiset(s) - multiset{x}
    ensures |Remove(s, x)| == |s| - 1
  {
    assert s == [s[0]] + s[1..];
    if s[0] != x {
      RemoveMultiset(s[1..], x);
    }
  }

  lemma {:induction false} RemoveMembers<T(!new)>(s: seq<T>, x: T)
    requires NoDup(s)
    ensures NoDup(Remove(s, x))
    ensures forall y :: y in Remove(s, x) <==> y in s && y != x
  {
    if s != [] && s[0] != x {
      RemoveMembers(s[1..], x);
      assert forall y :: y in s <==> y == s[0] || y in s[1..];
      assert s[0] !in s[1..];
      assert s[0] !in Remove(s[1..], x);
    } else if s != [] {
      assert forall y :: y in s[1..] ==> exists j :: 1 <= j < |s| && s[j] == y;
    }
  }

  lemma {:induction false} RemoveAt<T(!new)>(s: seq<T>, i: nat)
    requires i < |s| && NoDup(s)
    ensures Remove(s, s[i]) == s[..i] + s[i + 1..]
  {
    if i > 0 {
      RemoveAt(s[1..], i - 1);
      assert s[1..][..i - 1] == s[1..i];
      assert [s[0]] + s[1..i] == s[..i];
    }
  }

  /** Where x first stands in s. */
  function IndexOf<T(==)>(s: seq<T>, x: T): (i: nat)
    requires x in s
    ensures i < |s| && s[i] == x
  {
    if s[0] == x then 0 else 1 + IndexOf(s[1..], x)
  }

  function ToSet<T(==)>(s: seq<T>): set<T> {
    set x | x in s
  }

  lemma {:induction false} NoDupCardinality<T(!new)>(s: seq<T>)
    requires NoDup(s)
    ensures |ToSet(s)| == |s|
  {
    if s != [] {
      NoDupCardinality(s[1..]);
      assert ToSet(s) == {s[0]} + ToSet(s[1..]);
    }
  }

  lemma InsertedMembers<T(!new)>(u: seq<T>, k: nat, a: T)
    requires k <= |u|
    ensures forall r :: r in u[..k] + [a] + u[k..] <==> r in u || r == a
    ensures NoDup(u) && a !in u ==> NoDup(u[..k] + [a] + u[k..])
  {
    assert u == u[..k] + u[k..];
    if NoDup(u) && a !in u {
      InsertedNoDup(u, k, a);
    }
  }

  lemma InsertedNoDup<T>(u: seq<T>, k: nat, a: T)
    requires k <= |u| && NoDup(u) && a !in u
    ensures NoDup(u[..k] + [a] + u[k..])
  {
    var w := u[..k] + [a] + u[k..];
    forall i, j | 0 <= i < j < |w|
      ensures w[i] != w[j]
    {
      assert i != k ==> w[i] == u[if i < k then i else i - 1];
      assert j != k ==> w[j] == u[if j < k then j else j - 1];
    }
  }

  lemma Overwrite<K, V>(m: map<K, V>, k: K, a: V, b: V)
    ensures m[k := a][k := b] == m[k := b]
  {
  }
}
