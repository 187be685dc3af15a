/**
 * The tree walks of the scheduler on an explicit tree of any shape.  They justify
 * modelling every kernel rb-tree elsewhere by its in-order sequence.
 */
module RbTree {
  import opened Seqs
  import opened Ordered

  datatype Tree<T> = Leaf | Node(left: Tree<T>, val: T, right: Tree<T>)

  datatype Dir = L | R

  function InOrder<T>(t: Tree<T>): seq<T> {
    if t.Leaf? then [] else InOrder(t.left) + [t.val] + InOrder(t.right)
  }

  function Child<T>(t: Tree<T>, d: Dir): Tree<T>
    requires t.Node?
  {
    if d == L then t.left else t.right
  }

  /** The path names a position of the tree, possibly an empty one. */
  predicate ValidPath<T>(t: Tree<T>, p: seq<Dir>) {
    p == [] || (t.Node? && ValidPath(Child(t, p[0]), p[1..]))
  }

  function At<T>(t: Tree<T>, p: seq<Dir>): Tree<T>
    requires ValidPath(t, p)
  {
    if p == [] then t else At(Child(t, p[0]), p[1..])
  }

  /** Number of nodes that precede the subtree at p in the in-order sequence. */
  function Offset<T>(t: Tree<T>, p: seq<Dir>): nat
    requires ValidPath(t, p)
  {
    if p == [] then 0
    else (if p[0] == L then 0 else |InOrder(t.left)| + 1) + Offset(Child(t, p[0]), p[1..])
  }

  /** Hang a new node at the empty position p (rb_link_node). */
  function Link<T>(t: Tree<T>, p: seq<Dir>, x: T): Tree<T>
    requires ValidPath(t, p) && At(t, p).Leaf?
  {
    if p == [] then Node(Leaf, x, Leaf)
    else if p[0] == L then Node(Link(t.left, p[1..], x), t.val, t.right)
    else Node(t.left, t.val, Link(t.right, p[1..], x))
  }

  lemma {:induction false} ExtendPath<T>(t: Tree<T>, p: seq<Dir>, d: Dir)
    requires ValidPath(t, p) && At(t, p).Node?
    ensures ValidPath(t, p + [d]) && At(t, p + [d]) == Child(At(t, p), d)
    ensures Offset(t, p + [d]) ==
            Offset(t, p) + if d == L then 0 else |InOrder(At(t, p).left)| + 1
  {
    if p == [] {
      assert [d][1..] == [];
    } else {
      assert (p + [d])[1..] == p[1..] + [d];
      ExtendPath(Child(t, p[0]), p[1..], d);
    }
  }

  lemma {:induction false} SubtreeSlice<T>(t: Tree<T>, p: seq<Dir>)
    requires ValidPath(t, p)
    ensures Offset(t, p) + |InOrder(At(t, p))| <= |InOrder(t)|
    ensures InOrder(t)[Offset(t, p)..][..|InOrder(At(t, p))|] == InOrder(At(t, p))
  {
    if p == [] {
      assert InOrder(t)[0..][..|InOrder(t)|] == InOrder(t);
    } else {
      var c := Child(t, p[0]);
      SubtreeSlice(c, p[1..]);
      var o := if p[0] == L then 0 else |InOrder(t.left)| + 1;
      assert InOrder(t)[o..][..|InOrder(c)|] == InOrder(c);
      var n := |InOrder(At(t, p))|;
      var oc := Offset(c, p[1..]);
      assert InOrder(t)[o + oc..][..n] == InOrder(c)[oc..][..n];
    }
  }

  lemma {:induction false} LinkInOrder<T>(t: Tree<T>, p: seq<Dir>, x: T)
    requires ValidPath(t, p) && At(t, p).Leaf?
    ensures Offset(t, p) <= |InOrder(t)|
    ensures InOrder(Link(t, p, x)) == InOrder(t)[..Offset(t, p)] + [x] + InOrder(t)[Offset(t, p)..]
  {
    SubtreeSlice(t, p);
    if p != [] {
      LinkInOrder(Child(t, p[0]), p[1..], x);
      var oc := Offset(Child(t, p[0]), p[1..]);
      if p[0] == L {
        InsertLeft(InOrder(t.left), t.val, InOrder(t.right), oc, x);
      } else {
        InsertRight(InOrder(t.left), t.val, InOrder(t.right), oc, x);
      }
    }
  }

  lemma InsertLeft<T>(l: seq<T>, v: T, r: seq<T>, k: nat, x: T)
    requires k <= |l|
    ensures l[..k] + [x] + l[k..] + [v] + r == (l + [v] + r)[..k] + [x] + (l + [v] + r)[k..]
  {
    assert (l + [v] + r)[..k] == l[..k];
    assert (l + [v] + r)[k..] == l[k..] + [v] + r;
  }

  lemma InsertRight<T>(l: seq<T>, v: T, r: seq<T>, k: nat, x: T)
    requires k <= |r|
    ensures l + [v] + (r[..k] + [x] + r[k..]) == (l + [v] + r)[..|l| + 1 + k] + [x] + (l + [v] + r)[|l| + 1 + k..]
  {
    assert (l + [v] + r)[..|l| + 1 + k] == l + [v] + r[..k];
    assert (l + [v] + r)[|l| + 1 + k..] == r[k..];
  }

  /** Around the node at p: what precedes it has no greater key, what follows no smaller. */
  lemma SplitAround<T>(key: T -> int, t: Tree<T>, p: seq<Dir>)
    requires ValidPath(t, p) && At(t, p).Node? && Sorted(key, InOrder(t))
    ensures var c, s := At(t, p), InOrder(t);
            var m := Offset(t, p) + |InOrder(c.left)|;
            && Offset(t, p) + |InOrder(c)| <= |s|
            && |InOrder(c)| == |InOrder(c.left)| + 1 + |InOrder(c.right)|
            && s[m] == c.val
            && (forall i :: 0 <= i <= m ==> key(s[i]) <= key(c.val))
            && (forall i :: m <= i < |s| ==> key(c.val) <= key(s[i]))
  {
    hide Sorted;
    SubtreeSlice(t, p);
    var c, s, o := At(t, p), InOrder(t), Offset(t, p);
    var m := o + |InOrder(c.left)|;
    assert s[o..][..|InOrder(c)|][|InOrder(c.left)|] == s[m] == c.val;
    SortedAround(key, s, m);
  }

  lemma SortedAround<T>(key: T -> int, s: seq<T>, m: nat)
    requires Sorted(key, s) && m < |s|
    ensures forall i :: 0 <= i <= m ==> key(s[i]) <= key(s[m])
    ensures forall i :: m <= i < |s| ==> key(s[m]) <= key(s[i])
  {
  }

  /**
   * The insertion walk: smaller keys go left, all others right, and `left` stays set
   * only while no right turn is taken.  Linking at the position found inserts x after
   * all keys that are not greater, and `left` says x became the first node.
   */
  method InsertWalk<T>(key: T -> int, t: Tree<T>, x: T) returns (path: seq<Dir>, left: bool)
    requires Sorted(key, InOrder(t))
    ensures ValidPath(t, path) && At(t, path).Leaf?
    ensures InOrder(Link(t, path, x)) == Insert(key, InOrder(t), x)
    ensures left <==> InOrder(Link(t, path, x))[0] == x && Rank(key, InOrder(t), key(x)) == 0
  {
    hide Sorted, Rank, InOrder;
    path, left := [], true;
    var cur := t;
    while cur.Node?
      invariant ValidPath(t, path) && At(t, path) == cur
      invariant Offset(t, path) + |InOrder(cur)| <= |InOrder(t)|
      invariant forall i :: 0 <= i < Offset(t, path) ==> key(InOrder(t)[i]) <= key(x)
      invariant forall i :: Offset(t, path) + |InOrder(cur)| <= i < |InOrder(t)| ==> key(x) < key(InOrder(t)[i])
      invariant left <==> Offset(t, path) == 0
      decreases cur
    {
      SplitAround(key, t, path);
      if key(x) < key(cur.val) {
        ExtendPath(t, path, L);
        path, cur := path + [L], cur.left;
      } else {
        ExtendPath(t, path, R);
        path, cur, left := path + [R], cur.right, false;
      }
    }
    LinkInOrder(t, path, x);
    LeafIsEmpty(cur);
    RankUnique(key, InOrder(t), key(x), Offset(t, path));
  }

  lemma LeafIsEmpty<T>(t: Tree<T>)
    requires t.Leaf?
    ensures InOrder(t) == []
  {
  }

  /** Binary search by key: finds a node with the key whenever there is one. */
  method Find<T>(key: T -> int, t: Tree<T>, k: int) returns (r: Option<T>)
    requires Sorted(key, InOrder(t))
    ensures r.Some? ==> r.value in InOrder(t) && key(r.value) == k
    ensures r.None? ==> forall i :: 0 <= i < |InOrder(t)| ==> key(InOrder(t)[i]) != k
  {
    var cur := t;
    ghost var path := [];
    while cur.Node?
      invariant ValidPath(t, path) && At(t, path) == cur
      invariant Offset(t, path) + |InOrder(cur)| <= |InOrder(t)|
      invariant forall i :: 0 <= i < Offset(t, path) ==> key(InOrder(t)[i]) < k
      invariant forall i :: Offset(t, path) + |InOrder(cur)| <= i < |InOrder(t)| ==> k < key(InOrder(t)[i])
      decreases cur
    {
      SplitAround(key, t, path);
      if k < key(cur.val) {
        ExtendPath(t, path, L);
        path, cur := path + [L], cur.left;
      } else if k > key(cur.val) {
        ExtendPath(t, path, R);
        path, cur := path + [R], cur.right;
      } else {
        return Some(cur.val);
      }
    }
    r := None;
  }
}
