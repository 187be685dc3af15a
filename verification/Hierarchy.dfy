/**
 * The weighted tree of groups: which groups are active, how much weight competes under
 * each, and what fraction of the disk a backlogged group is entitled to.
 */
module Hierarchy {
  import opened Kernel

  /**
   * A cfq_group.  Groups are numbered in creation order, so a parent has the smaller
   * number and the root is 0; the root's parent field is not used.  A pending weight of
   * zero means none.
   */
  datatype Cfqg = Cfqg(parent: nat, onTree: bool, nrActive: int, childrenWeight: int, vfraction: int,
                       weight: nat, newWeight: nat, leafWeight: nat, newLeafWeight: nat)

  type Groups = seq<Cfqg>

  predicate Shaped(g: Groups) {
    && g != []
    && (forall c :: 0 < c < |g| ==> g[c].parent < c)
    && (forall c :: 0 <= c < |g| ==> g[c].weight > 0 && g[c].leafWeight > 0)
  }

  predicate Active(x: Cfqg) {
    x.nrActive > 0
  }

  /** Is c a child of p that is counted there? */
  predicate Counts(g: Groups, a: seq<bool>, p: nat, c: nat)
    requires |a| == |g|
  {
    0 < c < |g| && g[c].parent == p && a[c]
  }

  /** Counted children of p among the first k groups, and their weight. */
  function ActiveChildren(g: Groups, a: seq<bool>, p: nat, k: nat): nat
    requires |a| == |g| && k <= |g|
  {
    if k == 0 then 0 else ActiveChildren(g, a, p, k - 1) + if Counts(g, a, p, k - 1) then 1 else 0
  }

  function WeightOfChildren(g: Groups, a: seq<bool>, p: nat, k: nat): nat
    requires |a| == |g| && k <= |g|
  {
    if k == 0 then 0 else WeightOfChildren(g, a, p, k - 1) + if Counts(g, a, p, k - 1) then g[k - 1].weight else 0
  }

  /** nr_active and children_weight of p are the sums the struct comment describes. */
  ghost predicate Balanced(g: Groups, a: seq<bool>, p: nat)
    requires |a| == |g| && p < |g|
  {
    && g[p].nrActive == (if g[p].onTree then 1 else 0) + ActiveChildren(g, a, p, |g|)
    && g[p].childrenWeight == (if g[p].onTree then g[p].leafWeight else 0) + WeightOfChildren(g, a, p, |g|)
  }

  function Activity(g: Groups): (a: seq<bool>)
    ensures |a| == |g|
    ensures forall c :: 0 <= c < |g| ==> a[c] == Active(g[c])
  {
    seq(|g|, c requires 0 <= c < |g| => Active(g[c]))
  }

  ghost predicate BalancedFor(g: Groups, a: seq<bool>)
    requires |a| == |g|
  {
    forall p :: 0 <= p < |g| ==> Balanced(g, a, p)
  }

  ghost predicate Inv(g: Groups) {
    Shaped(g) && BalancedFor(g, Activity(g))
  }

  // ---------- elementary changes ----------

  /** Sums see only parents, flags and the weights of counted groups. */
  lemma {:induction false} SumsAgree(g: Groups, g': Groups, a: seq<bool>, p: nat, k: nat)
    requires |a| == |g| == |g'| && k <= |g|
    requires forall c :: 0 <= c < |g| ==> g'[c].parent == g[c].parent && (a[c] ==> g'[c].weight == g[c].weight)
    ensures ActiveChildren(g', a, p, k) == ActiveChildren(g, a, p, k)
    ensures WeightOfChildren(g', a, p, k) == WeightOfChildren(g, a, p, k)
  {
    if k > 0 {
      SumsAgree(g, g', a, p, k - 1);
    }
  }

  /** Counting one more group adds one, and its weight, at its parent only. */
  lemma {:induction false} SumsCount(g: Groups, a: seq<bool>, c: nat, p: nat, k: nat)
    requires |a| == |g| && c < |g| && k <= |g| && !a[c]
    ensures var d := if 0 < c < k && g[c].parent == p then 1 else 0;
            && ActiveChildren(g, a[c := true], p, k) == ActiveChildren(g, a, p, k) + d
            && WeightOfChildren(g, a[c := true], p, k) == WeightOfChildren(g, a, p, k) + d * g[c].weight
  {
    if k > 0 {
      SumsCount(g, a, c, p, k - 1);
    }
  }

  /** Set one group's flag and counters; all others keep balance if the flags allow. */
  lemma UpdateBalanced(g: Groups, g': Groups, a: seq<bool>, q: nat)
    requires |a| == |g| == |g'| && q < |g| && BalancedFor(g, a)
    requires forall c :: 0 <= c < |g| && c != q ==>
               g'[c].onTree == g[c].onTree && g'[c].nrActive == g[c].nrActive
               && g'[c].childrenWeight == g[c].childrenWeight && g'[c].leafWeight == g[c].leafWeight
    requires forall c :: 0 <= c < |g| ==> g'[c].parent == g[c].parent && (a[c] ==> g'[c].weight == g[c].weight)
    requires g'[q].nrActive - (if g'[q].onTree then 1 else 0) == g[q].nrActive - (if g[q].onTree then 1 else 0)
    requires g'[q].childrenWeight - (if g'[q].onTree then g'[q].leafWeight else 0)
             == g[q].childrenWeight - (if g[q].onTree then g[q].leafWeight else 0)
    ensures BalancedFor(g', a)
  {
    forall p | 0 <= p < |g|
      ensures Balanced(g', a, p)
    {
      assert Balanced(g, a, p);
      SumsAgree(g, g', a, p, |g|);
    }
  }

  /** Counting group c at its parent q, whose counters move with it. */
  lemma CountBalanced(g: Groups, a: seq<bool>, c: nat, q: nat, x: Cfqg)
    requires |a| == |g| && 0 < c < |g| && q == g[c].parent < c && !a[c] && BalancedFor(g, a)
    requires x == g[q].(nrActive := g[q].nrActive + 1, childrenWeight := g[q].childrenWeight + g[c].weight)
    ensures BalancedFor(g[q := x], a[c := true])
  {
    var g', b := g[q := x], a[c := true];
    forall p | 0 <= p < |g|
      ensures Balanced(g', b, p)
    {
      assert Balanced(g, a, p);
      SumsCount(g, a, c, p, |g|);
      SumsAgree(g, g', b, p, |g|);
    }
  }

  lemma UncountBalanced(g: Groups, a: seq<bool>, c: nat, q: nat, x: Cfqg)
    requires |a| == |g| && 0 < c < |g| && q == g[c].parent < c && a[c] && BalancedFor(g, a)
    requires x == g[q].(nrActive := g[q].nrActive - 1, childrenWeight := g[q].childrenWeight - g[c].weight)
    ensures BalancedFor(g[q := x], a[c := false])
  {
    var g', b := g[q := x], a[c := false];
    assert b[c := true] == a;
    forall p | 0 <= p < |g|
      ensures Balanced(g', b, p)
    {
      assert Balanced(g, a, p);
      SumsCount(g, b, c, p, |g|);
      SumsAgree(g, g', b, p, |g|);
    }
  }

  /** A group that counts an active child is active itself, with positive weight. */
  lemma {:induction false} ChildMakesActive(g: Groups, a: seq<bool>, c: nat, k: nat)
    requires Shaped(g) && |a| == |g| && 0 < c < k <= |g| && a[c]
    ensures ActiveChildren(g, a, g[c].parent, k) >= 1
    ensures WeightOfChildren(g, a, g[c].parent, k) >= g[c].weight
  {
    if c < k - 1 {
      ChildMakesActive(g, a, c, k - 1);
    }
  }

  lemma {:induction false} NoChildrenNoWeight(g: Groups, a: seq<bool>, p: nat, k: nat)
    requires |a| == |g| && k <= |g| && ActiveChildren(g, a, p, k) == 0
    ensures WeightOfChildren(g, a, p, k) == 0
  {
    if k > 0 {
      NoChildrenNoWeight(g, a, p, k - 1);
    }
  }

  /** WARN_ON_ONCE(pos->children_weight): an inactive group has no competing weight. */
  lemma InactiveHasNoWeight(g: Groups, a: seq<bool>, p: nat)
    requires |a| == |g| && p < |g| && Balanced(g, a, p) && g[p].nrActive == 0
    ensures !g[p].onTree && g[p].childrenWeight == 0
  {
    NoChildrenNoWeight(g, a, p, |g|);
  }

  /**
   * The counters are determined by who is on the tree and by the weights that count, so
   * two balanced states that agree on those agree on every counter.
   */
  lemma {:induction false} CountersDetermined(g: Groups, h: Groups, k: nat)
    requires Inv(g) && Inv(h) && |h| == |g| && k <= |g|
    requires forall c :: 0 <= c < |g| ==> h[c].parent == g[c].parent && h[c].onTree == g[c].onTree
    requires forall c :: 0 <= c < |g| && Active(g[c]) ==> h[c].weight == g[c].weight
    requires forall c :: 0 <= c < |g| && g[c].onTree ==> h[c].leafWeight == g[c].leafWeight
    ensures forall p :: k <= p < |g| ==>
              h[p].nrActive == g[p].nrActive && h[p].childrenWeight == g[p].childrenWeight
    decreases |g| - k
  {
    if k < |g| {
      CountersDetermined(g, h, k + 1);
      assert Balanced(g, Activity(g), k) && Balanced(h, Activity(h), k);
      HigherSumsAgree(g, h, k, |g|);
    }
  }

  lemma {:induction false} HigherSumsAgree(g: Groups, h: Groups, p: nat, k: nat)
    requires Shaped(g) && |h| == |g| && p < |g| && k <= |g|
    requires forall c :: 0 <= c < |g| ==> h[c].parent == g[c].parent
    requires forall c :: p < c < |g| ==> h[c].nrActive == g[c].nrActive && (Active(g[c]) ==> h[c].weight == g[c].weight)
    ensures ActiveChildren(h, Activity(h), p, k) == ActiveChildren(g, Activity(g), p, k)
    ensures WeightOfChildren(h, Activity(h), p, k) == WeightOfChildren(g, Activity(g), p, k)
  {
    if k > 0 {
      HigherSumsAgree(g, h, p, k - 1);
    }
  }

  // ---------- the fraction of a group ----------

  ghost predicate IsPath(g: Groups, path: seq<nat>) {
    && path != []
    && (forall j :: 0 <= j < |path| ==> path[j] < |g|)
    && (forall j :: 0 <= j < |path| - 1 ==> path[j] > 0 && path[j + 1] == g[path[j]].parent)
  }

  /** From group i up to the root. */
  function RootPath(g: Groups, i: nat): (path: seq<nat>)
    requires Shaped(g) && i < |g|
    ensures path != [] && path[0] == i
  {
    if i == 0 then [0] else [i] + RootPath(g, g[i].parent)
  }

  /** The fixed-point share compounded along a path, rounding down at each level. */
  function PathShare(g: Groups, path: seq<nat>): int
    requires IsPath(g, path) && forall j :: 0 <= j < |path| ==> g[path[j]].childrenWeight > 0
  {
    var n := |path| - 1;
    if n == 0 then ONE * g[path[0]].leafWeight / g[path[0]].childrenWeight
    else PathShare(g, path[..n]) * g[path[n - 1]].weight / g[path[n]].childrenWeight
  }

  lemma {:induction false} PathDescends(g: Groups, path: seq<nat>, i: nat, j: nat)
    requires Shaped(g) && IsPath(g, path) && i < j < |path|
    ensures path[j] < path[i]
    decreases j - i
  {
    if i + 1 < j {
      PathDescends(g, path, i + 1, j);
    }
  }

  /** The share depends on the path's counters, leaf weight and all weights but the last. */
  lemma {:induction false} ShareUnchanged(g: Groups, g': Groups, path: seq<nat>)
    requires IsPath(g, path) && IsPath(g', path)
    requires forall j :: 0 <= j < |path| ==> g[path[j]].childrenWeight > 0
    requires forall j :: 0 <= j < |path| ==> g'[path[j]].childrenWeight == g[path[j]].childrenWeight
    requires forall j :: 0 <= j < |path| - 1 ==> g'[path[j]].weight == g[path[j]].weight
    requires g'[path[0]].leafWeight == g[path[0]].leafWeight
    ensures PathShare(g', path) == PathShare(g, path)
    decreases |path|
  {
    var n := |path| - 1;
    if n > 0 {
      ShareUnchanged(g, g', path[..n]);
    }
  }

  lemma {:induction false} PathIsRootPath(g: Groups, path: seq<nat>)
    requires Shaped(g) && IsPath(g, path) && path[|path| - 1] == 0
    ensures RootPath(g, path[0]) == path
    decreases |path|
  {
    if |path| == 1 {
      assert path == [0];
    } else {
      var t := path[1..];
      forall j | 0 <= j < |t| - 1
        ensures t[j] > 0 && t[j + 1] == g[t[j]].parent
      {
        assert path[j + 2] == g[path[j + 1]].parent;
      }
      PathIsRootPath(g, t);
      assert path == [path[0]] + t;
    }
  }

  // ---------- the groups, updated in place ----------

  /** The pending weight takes effect when a group (not the root) becomes active. */
  function WeightAfter(x: Cfqg, activated: bool): nat {
    if activated && x.newWeight != 0 then x.newWeight else x.weight
  }

  /** Everything about the groups that activation and deactivation leave alone. */
  ghost predicate SameOthers(g: Groups, h: Groups, i: nat) {
    && |h| == |g|
    && (forall c :: 0 <= c < |g| ==> h[c].parent == g[c].parent)
    && (forall c :: 0 <= c < |g| && c != i ==>
          h[c].onTree == g[c].onTree && h[c].leafWeight == g[c].leafWeight && h[c].newLeafWeight == g[c].newLeafWeight)
  }

  /** State of the upward walk: groups below `pos` are untouched, those above are settled. */
  ghost predicate ClimbInv(g0: Groups, g: Groups, a: seq<bool>, i: nat, pos: nat, propagate: bool) {
    && |a| == |g| && pos < |g| && i < |g| && pos <= i
    && Shaped(g) && SameOthers(g0, g, i) && g[i].onTree
    && BalancedFor(g, a)
    && Active(g[pos]) && a[pos] == !propagate && (propagate <==> !Active(g0[pos]))
    && (forall c :: 0 <= c < |g| && c != pos ==> a[c] == Active(g[c]))
    && (forall c :: 0 <= c < pos ==> g[c] == g0[c])
    && g[pos].weight == g0[pos].weight && g[pos].newWeight == g0[pos].newWeight
    && (forall c :: pos < c < |g| ==> g[c].weight == WeightAfter(g0[c], !Active(g0[c]) && Active(g[c])))
    && (forall c :: 0 <= c < |g| ==> g[c].vfraction == g0[c].vfraction)
    && g[i].leafWeight == LeafWeightAfter(g0[i])
  }

  /** cfq_update_group_leaf_weight. */
  function LeafWeightAfter(x: Cfqg): nat {
    if x.newLeafWeight != 0 then x.newLeafWeight else x.leafWeight
  }

  /** The child of an activated parent, and the parent, after one propagation step. */
  function Propagated(g: Groups, pos: nat, q: nat): Groups
    requires pos < |g| && q < |g|
  {
    var w := WeightAfter(g[pos], true);
    g[pos := g[pos].(weight := w, newWeight := 0)]
     [q := g[q].(nrActive := g[q].nrActive + 1, childrenWeight := g[q].childrenWeight + w)]
  }

  lemma PropagateBalanced(g: Groups, a: seq<bool>, pos: nat)
    requires |a| == |g| && Shaped(g) && 0 < pos < |g| && !a[pos] && BalancedFor(g, a)
    ensures BalancedFor(Propagated(g, pos, g[pos].parent), a[pos := true])
    ensures Shaped(Propagated(g, pos, g[pos].parent))
  {
    var q := g[pos].parent;
    var h := g[pos := g[pos].(weight := WeightAfter(g[pos], true), newWeight := 0)];
    UpdateBalanced(g, h, a, pos);
    CountBalanced(h, a, pos, q, Propagated(g, pos, q)[q]);
  }

  lemma CountersNonNegative(g: Groups, a: seq<bool>, p: nat)
    requires |a| == |g| && p < |g| && Balanced(g, a, p)
    ensures g[p].nrActive >= 0 && g[p].childrenWeight >= 0
  {
  }

  lemma ClimbPropagates(g0: Groups, g: Groups, a: seq<bool>, i: nat, pos: nat)
    requires Inv(g0) && ClimbInv(g0, g, a, i, pos, true) && pos > 0
    ensures var q := g[pos].parent;
            ClimbInv(g0, Propagated(g, pos, q), a[pos := true], i, q, g[q].nrActive == 0)
  {
    var q := g[pos].parent;
    PropagateBalanced(g, a, pos);
    assert Balanced(g, a, q);
    CountersNonNegative(g, a, q);
  }

  lemma ClimbPasses(g0: Groups, g: Groups, a: seq<bool>, i: nat, pos: nat)
    requires Inv(g0) && ClimbInv(g0, g, a, i, pos, false) && pos > 0
    ensures ClimbInv(g0, g, a, i, g[pos].parent, false)
  {
    var q := g[pos].parent;
    assert Balanced(g0, Activity(g0), q);
    ChildMakesActive(g0, Activity(g0), pos, |g0|);
  }

  /** The root's own flag is read by nobody. */
  lemma RootFlag(g: Groups, a: seq<bool>)
    requires |a| == |g| && g != [] && BalancedFor(g, a) && forall c :: 0 < c < |g| ==> a[c] == Active(g[c])
    ensures BalancedFor(g, Activity(g))
  {
    var b := Activity(g);
    forall p | 0 <= p < |g|
      ensures Balanced(g, b, p)
    {
      assert Balanced(g, a, p);
      SameFlagsSameSums(g, a, b, p, |g|);
    }
  }

  lemma {:induction false} SameFlagsSameSums(g: Groups, a: seq<bool>, b: seq<bool>, p: nat, k: nat)
    requires |a| == |g| == |b| && k <= |g| && forall c :: 0 < c < |g| ==> a[c] == b[c]
    ensures ActiveChildren(g, a, p, k) == ActiveChildren(g, b, p, k)
    ensures WeightOfChildren(g, a, p, k) == WeightOfChildren(g, b, p, k)
  {
    if k > 0 {
      SameFlagsSameSums(g, a, b, p, k - 1);
    }
  }

  ghost predicate Shares(g: Groups, path: seq<nat>, i: nat, pos: nat, vfr: int) {
    && IsPath(g, path) && path[0] == i && path[|path| - 1] == pos
    && (forall j :: 0 <= j < |path| ==> g[path[j]].childrenWeight > 0)
    && vfr == PathShare(g, path)
  }

  /** One level up: the share so far is unaffected, and the next factor is applied. */
  lemma SharesUp(g: Groups, h: Groups, path: seq<nat>, i: nat, pos: nat, vfr: int)
    requires Shaped(g) && Shares(g, path, i, pos, vfr) && 0 < pos < |g| && |h| == |g|
    requires forall c :: 0 <= c < |g| ==> h[c].parent == g[c].parent && h[c].leafWeight == g[c].leafWeight
    requires forall c :: pos <= c < |g| ==> h[c].childrenWeight == g[c].childrenWeight
    requires forall c :: pos < c < |g| ==> h[c].weight == g[c].weight
    requires h[h[pos].parent].childrenWeight > 0
    ensures var q := h[pos].parent;
            Shares(h, path + [q], i, q, vfr * h[pos].weight / h[q].childrenWeight)
  {
    var q := h[pos].parent;
    var n := |path| - 1;
    forall j | 0 <= j < n
      ensures pos < path[j]
    {
      PathDescends(g, path, j, n);
    }
    assert IsPath(h, path);
    ShareUnchanged(g, h, path);
    var up := path + [q];
    assert up[..n + 1] == path;
    assert IsPath(h, up) by {
      forall j | 0 <= j < |up| - 1
        ensures up[j] > 0 && up[j + 1] == h[up[j]].parent
      {
        if j < n {
          assert path[j + 1] == h[path[j]].parent;
        }
      }
    }
  }

  /**
   * State of the deactivation walk: every group but `pos` is counted exactly when active,
   * `pos` is still counted at its parent, and inactive if the walk is to go on.
   */
  ghost predicate FallInv(g0: Groups, g: Groups, a: seq<bool>, i: nat, pos: nat, propagate: bool) {
    && |a| == |g| == |g0| && pos <= i < |g| && Shaped(g) && BalancedFor(g, a)
    && (forall c :: 0 <= c < |g| && c != pos ==> a[c] == Active(g[c]))
    && (if propagate then a[pos] && g[pos].nrActive == 0 else a[pos] == Active(g[pos]))
    && Active(g0[pos])
    && (forall c :: 0 <= c < |g| ==> g[c].(nrActive := 0, childrenWeight := 0, vfraction := 0, onTree := false)
                                     == g0[c].(nrActive := 0, childrenWeight := 0, vfraction := 0, onTree := false))
    && (forall c :: 0 <= c < |g| ==> g[c].onTree == (g0[c].onTree && c != i))
    && (forall c :: 0 <= c < pos ==> g[c] == g0[c])
    && (forall c :: 0 <= c < |g| && c != pos ==>
          g[c].vfraction == if Active(g0[c]) && !Active(g[c]) then 0 else g0[c].vfraction)
    && (propagate ==> g[pos].vfraction == g0[pos].vfraction)
    && (!propagate ==> g[pos].vfraction == if Active(g[pos]) then g0[pos].vfraction else 0)
  }

  lemma FallStart(g0: Groups, g: Groups, a: seq<bool>, i: nat)
    requires Inv(g0) && a == Activity(g0) && i < |g0| == |g| && g0[i].onTree && Active(g0[i])
    requires g == g0[i := g0[i].(onTree := false, nrActive := g0[i].nrActive - 1,
                                 childrenWeight := g0[i].childrenWeight - g0[i].leafWeight)]
    requires BalancedFor(g, a)
    ensures FallInv(g0, g, a, i, i, g[i].nrActive == 0)
  {
  }

  lemma FallDone(g0: Groups, g: Groups, a: seq<bool>, i: nat, pos: nat)
    requires FallInv(g0, g, a, i, pos, false)
    ensures Inv(g) && |g| == |g0|
    ensures forall c :: 0 <= c < |g| ==> g[c].(nrActive := 0, childrenWeight := 0, vfraction := 0, onTree := false)
                                         == g0[c].(nrActive := 0, childrenWeight := 0, vfraction := 0, onTree := false)
    ensures forall c :: 0 <= c < |g| ==> g[c].onTree == (g0[c].onTree && c != i)
    ensures forall c :: 0 <= c < |g| ==>
              g[c].vfraction == if Active(g0[c]) && !Active(g[c]) then 0 else g0[c].vfraction
  {
    assert a == Activity(g);
  }

  lemma RootUncounted(g: Groups, a: seq<bool>)
    requires |a| == |g| && g != [] && BalancedFor(g, a)
    ensures BalancedFor(g, a[0 := false])
  {
    var b := a[0 := false];
    forall p | 0 <= p < |g|
      ensures Balanced(g, b, p)
    {
      assert Balanced(g, a, p);
      SameFlagsSameSums(g, a, b, p, |g|);
    }
  }

  /** A group nobody has as a parent yet. */
  lemma {:induction false} NoChildrenYet(g: Groups, a: seq<bool>, p: nat, k: nat)
    requires Shaped(g) && |a| == |g| && k <= |g| <= p
    ensures ActiveChildren(g, a, p, k) == 0 && WeightOfChildren(g, a, p, k) == 0
  {
    if k > 0 {
      NoChildrenYet(g, a, p, k - 1);
    }
  }

  lemma {:induction false} SumsExtend(g: Groups, h: Groups, p: nat, k: nat)
    requires k <= |g| <= |h| && h[..|g|] == g
    ensures ActiveChildren(h, Activity(h), p, k) == ActiveChildren(g, Activity(g), p, k)
    ensures WeightOfChildren(h, Activity(h), p, k) == WeightOfChildren(g, Activity(g), p, k)
  {
    if k > 0 {
      SumsExtend(g, h, p, k - 1);
      assert h[k - 1] == h[..|g|][k - 1];
    }
  }

  lemma NewGroupKeepsInv(h: Groups, x: Cfqg)
    requires Inv(h) && x.parent < |h| && x.weight > 0 && x.leafWeight > 0
    requires !x.onTree && x.nrActive == 0 && x.childrenWeight == 0
    ensures Inv(h + [x])
  {
    var g := h + [x];
    forall p | 0 <= p < |g|
      ensures Balanced(g, Activity(g), p)
    {
      assert g[..|h|] == h;
      SumsExtend(h, g, p, |h|);
      if p < |h| {
        assert Balanced(h, Activity(h), p);
      } else {
        NoChildrenYet(h, Activity(h), p, |h|);
      }
    }
  }

  lemma LoneRoot(g: Groups)
    requires |g| == 1 && g[0].weight > 0 && g[0].leafWeight > 0
    requires !g[0].onTree && g[0].nrActive == 0 && g[0].childrenWeight == 0
    ensures Inv(g)
  {
    assert ActiveChildren(g, Activity(g), 0, 0) == 0 && WeightOfChildren(g, Activity(g), 0, 0) == 0;
    assert Balanced(g, Activity(g), 0);
  }

  class CfqGroups {
    var g: Groups

    ghost predicate Valid()
      reads this
    {
      Inv(g)
    }

    /** A lone inactive root. */
    constructor (weight: nat, leafWeight: nat)
      requires weight > 0 && leafWeight > 0
      ensures Valid() && |g| == 1 && !g[0].onTree
    {
      g := [Cfqg(0, false, 0, 0, 0, weight, 0, leafWeight, 0)];
      new;
      LoneRoot(g);
    }

    /** A new group under `parent`. */
    method Create(parent: nat, weight: nat, leafWeight: nat)
      requires Valid() && parent < |g| && weight > 0 && leafWeight > 0
      modifies this
      ensures Valid() && g == old(g) + [Cfqg(parent, false, 0, 0, 0, weight, 0, leafWeight, 0)]
    {
      NewGroupKeepsInv(g, Cfqg(parent, false, 0, 0, 0, weight, 0, leafWeight, 0));
      hide Inv;
      g := g + [Cfqg(parent, false, 0, 0, 0, weight, 0, leafWeight, 0)];
    }

    /** Weights written through the cgroup files wait for the next activation. */
    method SetPending(i: nat, newWeight: nat, newLeafWeight: nat)
      requires Valid() && i < |g|
      modifies this
      ensures Valid() && g == old(g)[i := old(g)[i].(newWeight := newWeight, newLeafWeight := newLeafWeight)]
    {
      ghost var h := g;
      g := g[i := g[i].(newWeight := newWeight, newLeafWeight := newLeafWeight)];
      UpdateBalanced(h, g, Activity(h), i);
      assert Activity(g) == Activity(h);
    }

    /** The first step of an activation: take the pending leaf weight and compete with it. */
    method ActivateSelf(i: nat) returns (propagate: bool)
      requires Valid() && i < |g| && !g[i].onTree
      modifies this
      ensures ClimbInv(old(g), g, Activity(old(g)), i, i, propagate)
      ensures g[i].childrenWeight >= g[i].leafWeight > 0
    {
      hide Inv, ClimbInv;
      ClimbStarts(g, i);
      // cfq_update_group_leaf_weight is never called on the tree
      assert !g[i].onTree;
      if g[i].newLeafWeight != 0 {
        g := g[i := g[i].(leafWeight := g[i].newLeafWeight, newLeafWeight := 0)];
      }
      propagate := g[i].nrActive == 0;
      g := g[i := g[i].(onTree := true, nrActive := g[i].nrActive + 1,
                        childrenWeight := g[i].childrenWeight + g[i].leafWeight)];
      assert g == Joined(old(g), i);
    }

    /**
     * cfq_group_service_tree_add, except for the tree position: activate group i and its
     * ancestors, and compute the share it is entitled to.
     */
    method Add(i: nat)
      requires Valid() && i < |g| && !g[i].onTree
      modifies this
      ensures Valid() && SameOthers(old(g), g, i) && g[i].onTree && g[i].leafWeight == LeafWeightAfter(old(g)[i])
      ensures forall c :: 0 <= c < |g| ==>
                g[c].weight == WeightAfter(old(g)[c], c > 0 && !Active(old(g)[c]) && Active(g[c]))
      ensures forall c :: 0 <= c < |g| && c != i ==> g[c].vfraction == old(g)[c].vfraction
      ensures exists share :: Shares(g, RootPath(g, i), i, 0, share) && g[i].vfraction == if share > 1 then share else 1
    {
      ghost var g0, a, path := g, Activity(g), [i];
      var propagate := ActivateSelf(i);
      hide Inv, ClimbInv, Shares, RootPath, SameOthers, Propagated, BalancedFor;
      ClimbFacts(g0, g, a, i, i, propagate);
      var vfr := ONE * g[i].leafWeight / g[i].childrenWeight;
      SharesStart(g, i);
      var pos := i;
      while pos != 0
        invariant ClimbInv(g0, g, a, i, pos, propagate)
        invariant Shares(g, path, i, pos, vfr)
        decreases pos
      {
        ghost var from := path;
        pos, propagate, vfr, a := Level(pos, propagate, vfr, g0, a, i, path);
        path := from + [pos];
      }
      ClimbDone(g0, g, a, i, propagate);
      ghost var h := g;
      g := g[i := g[i].(vfraction := if vfr > 1 then vfr else 1)];
      StoreShare(g0, h, g, i, path, vfr);
    }

    /**
     * cfq_group_service_tree_del, except for the tree position: deactivate group i and the
     * ancestors it alone kept active.
     */
    method Del(i: nat)
      requires Valid() && i < |g| && g[i].onTree
      modifies this
      ensures Valid() && |g| == |old(g)|
      ensures forall c :: 0 <= c < |g| ==>
                g[c].(nrActive := 0, childrenWeight := 0, vfraction := 0, onTree := false)
                == old(g)[c].(nrActive := 0, childrenWeight := 0, vfraction := 0, onTree := false)
      ensures forall c :: 0 <= c < |g| ==> g[c].onTree == (old(g)[c].onTree && c != i)
      ensures forall c :: 0 <= c < |g| ==>
                g[c].vfraction == if Active(old(g)[c]) && !Active(g[c]) then 0 else old(g)[c].vfraction
    {
      ghost var g0, a := g, Activity(g);
      assert Balanced(g, a, i);
      CountersNonNegative(g, a, i);
      var pos := i;
      g := g[i := g[i].(onTree := false, nrActive := g[i].nrActive - 1,
                        childrenWeight := g[i].childrenWeight - g[i].leafWeight)];
      UpdateBalanced(g0, g, a, i);
      var propagate := g[i].nrActive == 0;
      hide Inv, FallInv;
      FallStart(g0, g, a, i);
      while propagate
        invariant FallInv(g0, g, a, i, pos, propagate)
        decreases pos, propagate
      {
        pos, propagate, a := Deactivate(pos, g0, a, i);
      }
      FallDone(g0, g, a, i, pos);
    }

    /** One turn of the deactivation loop, for a group left with nothing active. */
    method Deactivate(pos: nat, ghost g0: Groups, ghost a: seq<bool>, ghost i: nat)
      returns (parent: nat, propagate: bool, ghost b: seq<bool>)
      requires FallInv(g0, g, a, i, pos, true)
      modifies this
      ensures FallInv(g0, g, b, i, parent, propagate)
      ensures parent < pos || (parent == pos && !propagate)
    {
      hide FallInv, Cleared, Uncounted;
      FallFacts(g0, g, a, i, pos);
      // WARN_ON_ONCE(pos->children_weight)
      assert g[pos].childrenWeight == 0;
      parent, propagate, b := pos, false, a[pos := false];
      if pos == 0 {
        FallEnds(g0, g, a, i);
        g := Cleared(g, pos);
        return;
      }
      FallGoesUp(g0, g, a, i, pos);
      g := Cleared(g, pos);
      parent := g[pos].parent;
      g := Uncounted(g, pos);
      propagate := g[parent].nrActive == 0;
    }

    /** One turn of the loop: perhaps activate the parent, and compound the share. */
    method Level(pos: nat, propagating: bool, share: int, ghost g0: Groups, ghost a: seq<bool>, ghost i: nat,
                 ghost path: seq<nat>)
      returns (parent: nat, propagate: bool, vfr: int, ghost b: seq<bool>)
      requires Inv(g0) && ClimbInv(g0, g, a, i, pos, propagating) && Shares(g, path, i, pos, share) && pos > 0
      modifies this
      ensures parent < pos && ClimbInv(g0, g, b, i, parent, propagate)
      ensures Shares(g, path + [parent], i, parent, vfr)
    {
      hide Inv, ClimbInv, Shares, Propagated, BalancedFor;
      ClimbFacts(g0, g, a, i, pos, propagating);
      ghost var h := g;
      b, propagate := a, propagating;
      parent := g[pos].parent;
      if propagate {
        ClimbPropagates(g0, g, a, i, pos);
        propagate := PropagateUp(pos);
        b := a[pos := true];
      } else {
        ClimbPasses(g0, g, a, i, pos);
      }
      ClimbFacts(g0, g, b, i, parent, propagate);
      SameParents(h, g, pos);
      ParentWeight(g, b, pos);
      SharesStep(h, g, path, i, pos, share);
      vfr := share * g[pos].weight / g[parent].childrenWeight;
    }

    /** One level of activation: `pos` takes its pending weight and is counted at its parent. */
    method PropagateUp(pos: nat) returns (propagate: bool)
      requires 0 < pos < |g| && g[pos].parent < pos
      modifies this
      ensures g == Propagated(old(g), pos, old(g)[pos].parent)
      ensures propagate == (old(g)[old(g)[pos].parent].nrActive == 0)
    {
      var parent := g[pos].parent;
      if g[pos].newWeight != 0 {
        g := g[pos := g[pos].(weight := g[pos].newWeight, newWeight := 0)];
      }
      propagate := g[parent].nrActive == 0;
      g := g[parent := g[parent].(nrActive := g[parent].nrActive + 1,
                                  childrenWeight := g[parent].childrenWeight + g[pos].weight)];
    }
  }

  /** Group i takes its pending leaf weight and competes with it. */
  function Joined(g: Groups, i: nat): Groups
    requires i < |g|
  {
    var w := LeafWeightAfter(g[i]);
    g[i := g[i].(onTree := true, nrActive := g[i].nrActive + 1, childrenWeight := g[i].childrenWeight + w,
                 leafWeight := w, newLeafWeight := 0)]
  }

  lemma ClimbStarts(g: Groups, i: nat)
    requires Inv(g) && i < |g| && !g[i].onTree
    ensures ClimbInv(g, Joined(g, i), Activity(g), i, i, g[i].nrActive == 0)
    ensures Joined(g, i)[i].childrenWeight >= Joined(g, i)[i].leafWeight > 0
  {
    assert Balanced(g, Activity(g), i);
    CountersNonNegative(g, Activity(g), i);
    hide Balanced;
    UpdateBalanced(g, Joined(g, i), Activity(g), i);
  }

  /** A group that became inactive loses its fraction. */
  function Cleared(g: Groups, pos: nat): (h: Groups)
    requires pos < |g|
    ensures |h| == |g| && h[pos].parent == g[pos].parent
  {
    g[pos := g[pos].(vfraction := 0)]
  }

  /** Its parent counts one active child and its weight less. */
  function Uncounted(g: Groups, pos: nat): (h: Groups)
    requires pos < |g| && g[pos].parent < |g|
    ensures |h| == |g|
  {
    var q := g[pos].parent;
    g[q := g[q].(nrActive := g[q].nrActive - 1, childrenWeight := g[q].childrenWeight - g[pos].weight)]
  }

  lemma FallFacts(g0: Groups, g: Groups, a: seq<bool>, i: nat, pos: nat)
    requires FallInv(g0, g, a, i, pos, true)
    ensures pos < |g| == |a| && g[pos].childrenWeight == 0 && (pos > 0 ==> g[pos].parent < pos)
  {
    assert Balanced(g, a, pos);
    InactiveHasNoWeight(g, a, pos);
  }

  lemma FallEnds(g0: Groups, g: Groups, a: seq<bool>, i: nat)
    requires FallInv(g0, g, a, i, 0, true)
    ensures FallInv(g0, Cleared(g, 0), a[0 := false], i, 0, false)
  {
    assert Balanced(g, a, 0);
    InactiveHasNoWeight(g, a, 0);
    hide Balanced;
    UpdateBalanced(g, Cleared(g, 0), a, 0);
    RootUncounted(Cleared(g, 0), a);
  }

  lemma FallGoesUp(g0: Groups, g: Groups, a: seq<bool>, i: nat, pos: nat)
    requires FallInv(g0, g, a, i, pos, true) && pos > 0
    ensures g[pos].parent < pos
    ensures var h, q := Uncounted(Cleared(g, pos), pos), g[pos].parent;
            FallInv(g0, h, a[pos := false], i, q, h[q].nrActive == 0)
  {
    FallFacts(g0, g, a, i, pos);
    hide Balanced;
    var u, q := Cleared(g, pos), g[pos].parent;
    UpdateBalanced(g, u, a, pos);
    ParentCounts(u, a, pos);
    UncountBalanced(u, a, pos, q, Uncounted(u, pos)[q]);
  }

  lemma ParentCounts(g: Groups, a: seq<bool>, pos: nat)
    requires Shaped(g) && |a| == |g| && 0 < pos < |g| && a[pos] && BalancedFor(g, a)
    ensures g[g[pos].parent].nrActive >= 1
  {
    ChildMakesActive(g, a, pos, |g|);
    assert Balanced(g, a, g[pos].parent);
  }

  lemma SameParents(h: Groups, g: Groups, pos: nat)
    requires Shaped(h) && 0 < pos < |h| && (g == h || g == Propagated(h, pos, h[pos].parent))
    ensures |g| == |h| && g[pos].parent == h[pos].parent
  {
  }

  lemma SharesStep(h: Groups, g: Groups, path: seq<nat>, i: nat, pos: nat, vfr: int)
    requires Shaped(h) && Shares(h, path, i, pos, vfr) && 0 < pos < |h|
    requires g == h || g == Propagated(h, pos, h[pos].parent)
    requires g[h[pos].parent].childrenWeight > 0
    ensures g[pos].parent == h[pos].parent
    ensures Shares(g, path + [h[pos].parent], i, h[pos].parent, vfr * g[pos].weight / g[h[pos].parent].childrenWeight)
  {
    SharesUp(h, g, path, i, pos, vfr);
  }

  lemma ClimbFacts(g0: Groups, g: Groups, a: seq<bool>, i: nat, pos: nat, propagate: bool)
    requires ClimbInv(g0, g, a, i, pos, propagate)
    ensures |a| == |g| && pos < |g| && i < |g| && Shaped(g) && BalancedFor(g, a) && Active(g[pos])
    ensures a[pos] == !propagate && (pos > 0 ==> g[pos].parent < pos)
  {
  }

  lemma ClimbDone(g0: Groups, g: Groups, a: seq<bool>, i: nat, propagate: bool)
    requires ClimbInv(g0, g, a, i, 0, propagate)
    ensures Inv(g) && SameOthers(g0, g, i) && i < |g| && g[i].onTree && g[i].leafWeight == LeafWeightAfter(g0[i])
    ensures forall c :: 0 <= c < |g| ==> g[c].weight == WeightAfter(g0[c], c > 0 && !Active(g0[c]) && Active(g[c]))
    ensures forall c :: 0 <= c < |g| ==> g[c].vfraction == g0[c].vfraction
  {
    RootFlag(g, a);
  }

  lemma SharesStart(g: Groups, i: nat)
    requires i < |g| && g[i].childrenWeight > 0
    ensures Shares(g, [i], i, i, ONE * g[i].leafWeight / g[i].childrenWeight)
  {
  }

  lemma ParentWeight(g: Groups, a: seq<bool>, pos: nat)
    requires Shaped(g) && |a| == |g| && 0 < pos < |g| && a[pos] && BalancedFor(g, a)
    ensures g[g[pos].parent].childrenWeight >= g[pos].weight > 0
  {
    assert Balanced(g, a, g[pos].parent);
    ChildMakesActive(g, a, pos, |g|);
  }

  lemma StoreShare(g0: Groups, h: Groups, g: Groups, i: nat, path: seq<nat>, vfr: int)
    requires Inv(h) && i < |h| && Shares(h, path, i, 0, vfr) && SameOthers(g0, h, i)
    requires |g| == |h| && g == h[i := h[i].(vfraction := g[i].vfraction)]
    ensures Inv(g) && Shares(g, RootPath(g, i), i, 0, vfr) && SameOthers(g0, g, i)
  {
    StoreKeepsInv(h, g, i);
    StoreKeepsOthers(g0, h, g, i);
    hide Inv, SameOthers;
    StoreKeepsShares(h, g, i, path, vfr);
  }

  lemma StoreKeepsOthers(g0: Groups, h: Groups, g: Groups, i: nat)
    requires SameOthers(g0, h, i) && i < |g| == |h| && g == h[i := h[i].(vfraction := g[i].vfraction)]
    ensures SameOthers(g0, g, i)
  {
    assert forall c :: 0 <= c < |g| && c != i ==> g[c] == h[c];
  }

  lemma StoreKeepsShares(h: Groups, g: Groups, i: nat, path: seq<nat>, vfr: int)
    requires Shaped(g) && Shares(h, path, i, 0, vfr)
    requires i < |g| == |h| && g == h[i := h[i].(vfraction := g[i].vfraction)]
    ensures Shares(g, RootPath(g, i), i, 0, vfr)
  {
    hide PathShare, RootPath;
    StoreKeepsPath(h, g, i, path);
    assert forall c :: 0 <= c < |g| ==>
      g[c].childrenWeight == h[c].childrenWeight && g[c].weight == h[c].weight && g[c].leafWeight == h[c].leafWeight;
    ShareUnchanged(h, g, path);
    PathIsRootPath(g, path);
  }

  lemma StoreKeepsInv(h: Groups, g: Groups, i: nat)
    requires Inv(h) && i < |h| == |g| && g == h[i := h[i].(vfraction := g[i].vfraction)]
    ensures Inv(g) && Shaped(g)
  {
    UpdateBalanced(h, g, Activity(h), i);
    assert Activity(g) == Activity(h);
  }

  lemma StoreKeepsPath(h: Groups, g: Groups, i: nat, path: seq<nat>)
    requires i < |h| == |g| && g == h[i := h[i].(vfraction := g[i].vfraction)] && IsPath(h, path)
    ensures IsPath(g, path)
  {
    forall j | 0 <= j < |path| - 1
      ensures path[j] > 0 && path[j + 1] == g[path[j]].parent
    {
      assert path[j + 1] == h[path[j]].parent;
    }
  }

  /** A delete exactly undoes an add on every group's counters, pending weights or not. */
  method AddThenDelete(t: CfqGroups, i: nat)
    requires t.Valid() && i < |t.g| && !t.g[i].onTree
    modifies t
    ensures t.Valid() && |t.g| == |old(t.g)|
    ensures forall c :: 0 <= c < |t.g| ==>
              t.g[c].nrActive == old(t.g)[c].nrActive && t.g[c].childrenWeight == old(t.g)[c].childrenWeight
              && t.g[c].onTree == old(t.g)[c].onTree
  {
    t.Add(i);
    t.Del(i);
    CountersDetermined(old(t.g), t.g, 0);
  }
}
