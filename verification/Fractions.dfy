/**
 * Exact shares of the weighted group tree, and the fixed-point ones rounded below them.
 */
module Fractions {
  import opened Kernel
  import opened Hierarchy
  import G = GroupTree

  /** A state in which every active group has weight competing under it. */
  ghost predicate Live(g: Groups) {
    Shaped(g) && forall c :: 0 <= c < |g| && Active(g[c]) ==> g[c].childrenWeight > 0
  }

  lemma InvIsLive(g: Groups)
    requires Inv(g)
    ensures Live(g)
  {
    forall p | 0 <= p < |g| && Active(g[p])
      ensures g[p].childrenWeight > 0
    {
      assert Balanced(g, Activity(g), p);
      if !g[p].onTree {
        ChildrenHaveWeight(g, Activity(g), p, |g|);
      }
    }
  }

  lemma {:induction false} ChildrenHaveWeight(g: Groups, a: seq<bool>, p: nat, k: nat)
    requires Shaped(g) && |a| == |g| && k <= |g| && ActiveChildren(g, a, p, k) > 0
    ensures WeightOfChildren(g, a, p, k) > 0
  {
    if !Counts(g, a, p, k - 1) {
      ChildrenHaveWeight(g, a, p, k - 1);
    }
  }

  /** Multiplication under a name, so that proofs by weight can keep it closed. */
  ghost function Times(x: real, y: real): real {
    x * y
  }

  /** x * w / c, the one shape every level of the hierarchy multiplies by. */
  ghost function Scale(x: real, w: int, c: int): real
    requires c > 0
  {
    x * (w as real) / (c as real)
  }

  lemma ScaleTimes(x: real, w: int, c: int)
    requires c > 0
    ensures Times(Scale(x, w, c), c as real) == Times(x, w as real)
  {
  }

  /** The fraction of the disk that reaches active group p from the root; 0 when inactive. */
  ghost function Flow(g: Groups, p: nat): real
    requires Live(g) && p < |g|
  {
    if !Active(g[p]) then 0.0
    else if p == 0 then 1.0
    else if !Active(g[g[p].parent]) then 0.0
    else Scale(Flow(g, g[p].parent), g[p].weight, g[g[p].parent].childrenWeight)
  }

  /** What group p keeps for its own tasks. */
  ghost function OwnShare(g: Groups, p: nat): real
    requires Live(g) && p < |g|
  {
    if !Active(g[p]) || !g[p].onTree then 0.0 else Scale(Flow(g, p), g[p].leafWeight, g[p].childrenWeight)
  }

  /** What p passes to its active children among the first k groups. */
  ghost function ChildFlow(g: Groups, p: nat, k: nat): real
    requires Live(g) && p < |g| && k <= |g|
  {
    if k == 0 then 0.0
    else ChildFlow(g, p, k - 1) + if Counts(g, Activity(g), p, k - 1) then Flow(g, k - 1) else 0.0
  }

  lemma {:induction false} ChildFlowByWeight(g: Groups, p: nat, k: nat)
    requires Inv(g) && Live(g) && p < |g| && k <= |g| && Active(g[p])
    ensures Times(ChildFlow(g, p, k), g[p].childrenWeight as real) ==
            Times(Flow(g, p), WeightOfChildren(g, Activity(g), p, k) as real)
  {
    assert g[p].childrenWeight > 0;
    hide Inv, Balanced, Scale, Times, Live;
    if k == 0 {
      TimesZero(g[p].childrenWeight as real, Flow(g, p));
    } else {
      ChildFlowByWeight(g, p, k - 1);
      if Counts(g, Activity(g), p, k - 1) {
        ScaleTimes(Flow(g, p), g[k - 1].weight, g[p].childrenWeight);
        FlowOfChild(g, k - 1);
        AddProducts(ChildFlow(g, p, k - 1), Flow(g, k - 1), g[p].childrenWeight as real,
                    Flow(g, p), WeightOfChildren(g, Activity(g), p, k - 1), g[k - 1].weight);
      }
    }
  }

  lemma AddProducts(x: real, y: real, c: real, f: real, v: int, w: int)
    requires Times(x, c) == Times(f, v as real) && Times(y, c) == Times(f, w as real)
    ensures Times(x + y, c) == Times(f, (v + w) as real)
  {
    assert (v + w) as real == (v as real) + (w as real);
    Distribute(x, y, c);
    Distribute(v as real, w as real, f);
  }

  lemma TimesZero(c: real, f: real)
    ensures Times(0.0, c) == Times(f, 0 as real)
  {
  }

  lemma Distribute(x: real, y: real, c: real)
    ensures (x + y) * c == x * c + y * c
    ensures c * (x + y) == c * x + c * y
  {
  }

  lemma {:induction false} NoChildFlow(g: Groups, p: nat, k: nat)
    requires Live(g) && p < |g| && k <= |g| && ActiveChildren(g, Activity(g), p, k) == 0
    ensures ChildFlow(g, p, k) == 0.0
  {
    if k > 0 {
      NoChildFlow(g, p, k - 1);
    }
  }

  lemma Cancel(x: real, y: real, c: real)
    requires c > 0.0 && Times(x, c) == Times(y, c)
    ensures x == y
  {
  }

  lemma OwnByWeight(g: Groups, p: nat)
    requires Live(g) && p < |g| && Active(g[p])
    ensures Times(OwnShare(g, p), g[p].childrenWeight as real) ==
            Times(Flow(g, p), (if g[p].onTree then g[p].leafWeight else 0) as real)
  {
    hide Scale, Times;
    if !g[p].onTree {
      TimesZero(g[p].childrenWeight as real, Flow(g, p));
    } else {
      ScaleTimes(Flow(g, p), g[p].leafWeight, g[p].childrenWeight);
    }
  }

  /** Each group splits what reaches it between itself and its active children. */
  lemma FlowSplits(g: Groups, p: nat)
    requires Inv(g) && Live(g) && p < |g|
    ensures Flow(g, p) == OwnShare(g, p) + ChildFlow(g, p, |g|)
  {
    assert Balanced(g, Activity(g), p);
    if Active(g[p]) {
      assert g[p].childrenWeight == (if g[p].onTree then g[p].leafWeight else 0)
                                    + WeightOfChildren(g, Activity(g), p, |g|);
      assert g[p].childrenWeight > 0;
      hide Inv, Balanced, Scale, Times, Live, OwnShare, ChildFlow, Flow, WeightOfChildren;
      ChildFlowByWeight(g, p, |g|);
      var l := if g[p].onTree then g[p].leafWeight else 0;
      OwnByWeight(g, p);
      AddProducts(OwnShare(g, p), ChildFlow(g, p, |g|), g[p].childrenWeight as real,
                  Flow(g, p), l, WeightOfChildren(g, Activity(g), p, |g|));
      Cancel(OwnShare(g, p) + ChildFlow(g, p, |g|), Flow(g, p), g[p].childrenWeight as real);
    } else {
      NoChildFlow(g, p, |g|);
    }
  }

  ghost function TotalOwn(g: Groups, k: nat): real
    requires Live(g) && k <= |g|
  {
    if k == 0 then 0.0 else TotalOwn(g, k - 1) + OwnShare(g, k - 1)
  }

  ghost function TotalFlow(g: Groups, k: nat): real
    requires Live(g) && k <= |g|
  {
    if k == 0 then 0.0 else TotalFlow(g, k - 1) + Flow(g, k - 1)
  }

  /** Sum over the first m parents of what they pass to the first k groups. */
  ghost function TotalChild(g: Groups, m: nat, k: nat): real
    requires Live(g) && m <= |g| && k <= |g|
  {
    if m == 0 then 0.0 else TotalChild(g, m - 1, k) + ChildFlow(g, m - 1, k)
  }

  lemma {:induction false} TotalsSplit(g: Groups, k: nat)
    requires Inv(g) && Live(g) && k <= |g|
    ensures TotalFlow(g, k) == TotalOwn(g, k) + TotalChild(g, k, |g|)
  {
    if k > 0 {
      TotalsSplit(g, k - 1);
      FlowSplits(g, k - 1);
    }
  }

  lemma {:induction false} OneMoreChild(g: Groups, m: nat, c: nat)
    requires Live(g) && m <= |g| && c < |g|
    ensures TotalChild(g, m, c + 1) ==
            TotalChild(g, m, c) + if c > 0 && Active(g[c]) && g[c].parent < m then Flow(g, c) else 0.0
  {
    if m > 0 {
      OneMoreChild(g, m - 1, c);
    }
  }

  /** Every active group but the root is fed by exactly one parent. */
  lemma {:induction false} ChildrenAreAllButRoot(g: Groups, k: nat)
    requires Live(g) && 0 < k <= |g|
    ensures TotalChild(g, |g|, k) == TotalFlow(g, k) - Flow(g, 0)
  {
    OneMoreChild(g, |g|, k - 1);
    if k > 1 {
      ChildrenAreAllButRoot(g, k - 1);
    } else {
      NothingYet(g, |g|);
      assert TotalFlow(g, 1) == TotalFlow(g, 0) + Flow(g, 0);
    }
  }

  lemma {:induction false} NothingYet(g: Groups, m: nat)
    requires Live(g) && m <= |g|
    ensures TotalChild(g, m, 0) == 0.0
  {
    if m > 0 {
      NothingYet(g, m - 1);
    }
  }

  lemma {:induction false} ActiveReachesRoot(g: Groups, p: nat)
    requires Inv(g) && p < |g| && Active(g[p])
    ensures Active(g[0])
  {
    if p > 0 {
      assert Balanced(g, Activity(g), g[p].parent);
      ChildMakesActive(g, Activity(g), p, |g|);
      ActiveReachesRoot(g, g[p].parent);
    }
  }

  /** The exact shares of the backlogged groups sum to exactly one, if there is any. */
  lemma SharesSumToOne(g: Groups, i: nat)
    requires Inv(g) && i < |g| && g[i].onTree
    ensures Live(g) && TotalOwn(g, |g|) == 1.0
  {
    InvIsLive(g);
    assert Balanced(g, Activity(g), i);
    ActiveReachesRoot(g, i);
    TotalsSplit(g, |g|);
    ChildrenAreAllButRoot(g, |g|);
  }

  // ---------- rounding ----------

  /** The share along a path without rounding. */
  ghost function ExactShare(g: Groups, path: seq<nat>): real
    requires IsPath(g, path) && forall j :: 0 <= j < |path| ==> g[path[j]].childrenWeight > 0
  {
    var n := |path| - 1;
    if n == 0 then Scale(ONE as real, g[path[0]].leafWeight, g[path[0]].childrenWeight)
    else Scale(ExactShare(g, path[..n]), g[path[n - 1]].weight, g[path[n]].childrenWeight)
  }

  lemma FloorBelow(v: int, x: real, w: nat, c: int)
    requires 0 <= v && v as real <= x && c > 0
    ensures 0 <= v * w / c && (v * w / c) as real <= Scale(x, w, c)
  {
    var q, r := v * w / c, w as real;
    assert v * w >= 0;
    assert q * c <= v * w;
    assert (q as real) * (c as real) <= (v as real) * r by {
      assert (q * c) as real <= (v * w) as real;
      assert (v * w) as real == (v as real) * r;
      assert (q * c) as real == (q as real) * (c as real);
    }
    assert (v as real) * r <= x * r;
    assert Times(Scale(x, w, c), c as real) == Times(x, r) by { ScaleTimes(x, w, c); }
    Divide(q as real, Scale(x, w, c), c as real);
  }

  lemma Divide(x: real, y: real, c: real)
    requires c > 0.0 && x * c <= y * c
    ensures x <= y
  {
  }

  lemma {:induction false} RoundedBelowExact(g: Groups, path: seq<nat>)
    requires IsPath(g, path) && forall j :: 0 <= j < |path| ==> g[path[j]].childrenWeight > 0
    ensures 0 <= PathShare(g, path) && PathShare(g, path) as real <= ExactShare(g, path)
    decreases |path|
  {
    var n := |path| - 1;
    if n == 0 {
      FloorBelow(ONE, ONE as real, g[path[0]].leafWeight, g[path[0]].childrenWeight);
    } else {
      RoundedBelowExact(g, path[..n]);
      FloorBelow(PathShare(g, path[..n]), ExactShare(g, path[..n]), g[path[n - 1]].weight, g[path[n]].childrenWeight);
    }
  }

  lemma ScaleSwap(x: real, y: real, w: int, c: int)
    requires c > 0
    ensures Times(Scale(x, w, c), y) == Times(x, Scale(y, w, c))
  {
  }

  /** Compounding upwards from the leaf and downwards from the root is the same product. */
  lemma {:induction false} ExactMeetsFlow(g: Groups, path: seq<nat>)
    requires Live(g) && IsPath(g, path) && forall j :: 0 <= j < |path| ==> Active(g[path[j]])
    ensures Times(ExactShare(g, path), Flow(g, path[|path| - 1])) ==
            Times(Scale(ONE as real, g[path[0]].leafWeight, g[path[0]].childrenWeight), Flow(g, path[0]))
    decreases |path|
  {
    hide Scale, Times, Flow;
    var n := |path| - 1;
    if n > 0 {
      ExactMeetsFlow(g, path[..n]);
      var c, q := path[n - 1], path[n];
      assert q == g[c].parent && c > 0 && path[..n][n - 1] == c;
      FlowOfChild(g, c);
      ScaleSwap(ExactShare(g, path[..n]), Flow(g, q), g[c].weight, g[q].childrenWeight);
    }
  }

  lemma FlowOfChild(g: Groups, c: nat)
    requires Live(g) && 0 < c < |g| && Active(g[c]) && Active(g[g[c].parent])
    ensures Flow(g, c) == Scale(Flow(g, g[c].parent), g[c].weight, g[g[c].parent].childrenWeight)
  {
  }

  lemma {:induction false} RootPathActive(g: Groups, i: nat)
    requires Inv(g) && Live(g) && i < |g| && Active(g[i])
    ensures IsPath(g, RootPath(g, i)) && RootPath(g, i)[|RootPath(g, i)| - 1] == 0
    ensures forall j :: 0 <= j < |RootPath(g, i)| ==> Active(g[RootPath(g, i)[j]])
  {
    if i > 0 {
      var q := g[i].parent;
      assert Balanced(g, Activity(g), q);
      ChildMakesActive(g, Activity(g), i, |g|);
      RootPathActive(g, q);
    }
  }

  /** The share cfq_group_service_tree_add would compute for group i in state g. */
  ghost function Rounded(g: Groups, i: nat): int
    requires Inv(g) && Live(g) && i < |g|
  {
    if !g[i].onTree then 0
    else
      assert Balanced(g, Activity(g), i);
      RootPathActive(g, i);
      PathShare(g, RootPath(g, i))
  }

  lemma RoundedBelowOwn(g: Groups, i: nat)
    requires Inv(g) && Live(g) && i < |g|
    ensures 0 <= Rounded(g, i) && Rounded(g, i) as real <= (ONE as real) * OwnShare(g, i)
  {
    if g[i].onTree {
      assert Balanced(g, Activity(g), i);
      RootPathActive(g, i);
      var path := RootPath(g, i);
      RoundedBelowExact(g, path);
      ExactMeetsFlow(g, path);
      ScaleSwap(ONE as real, Flow(g, i), g[i].leafWeight, g[i].childrenWeight);
    }
  }

  ghost function TotalRounded(g: Groups, k: nat): int
    requires Inv(g) && Live(g) && k <= |g|
  {
    if k == 0 then 0 else TotalRounded(g, k - 1) + Rounded(g, k - 1)
  }

  lemma {:induction false} RoundedTotals(g: Groups, k: nat)
    requires Inv(g) && Live(g) && k <= |g|
    ensures 0 <= TotalRounded(g, k) && TotalRounded(g, k) as real <= (ONE as real) * TotalOwn(g, k)
    ensures forall i :: 0 <= i < k ==> 0 <= Rounded(g, i) <= TotalRounded(g, k)
  {
    if k > 0 {
      RoundedTotals(g, k - 1);
      RoundedBelowOwn(g, k - 1);
    }
  }

  /**
   * Recomputed for one state, the fixed-point fractions of the groups on the tree sum to
   * at most one, and each one, after the clamp to 1, lies in [1, 4096].
   */
  lemma RoundedSumAtMostOne(g: Groups, i: nat)
    requires Inv(g) && i < |g| && g[i].onTree
    ensures Live(g) && TotalRounded(g, |g|) <= ONE
    ensures forall j :: 0 <= j < |g| ==> 0 <= Rounded(g, j) <= ONE
  {
    SharesSumToOne(g, i);
    RoundedTotals(g, |g|);
  }

  /** The vfraction stored by an activation is the clamped share, in (0, 1] in fixed point. */
  method AddInRange(t: CfqGroups, i: nat)
    requires t.Valid() && i < |t.g| && !t.g[i].onTree && FractionsInRange(t.g)
    modifies t
    ensures t.Valid() && i < |t.g| && t.g[i].onTree && FractionsInRange(t.g)
    ensures Live(t.g) && t.g[i].vfraction == if Rounded(t.g, i) > 1 then Rounded(t.g, i) else 1
  {
    t.Add(i);
    RoundedSumAtMostOne(t.g, i);
    ghost var share :| Shares(t.g, RootPath(t.g, i), i, 0, share)
                       && t.g[i].vfraction == if share > 1 then share else 1;
    assert share == Rounded(t.g, i);
  }

  /** Every group on the tree has a stored fraction that may divide its charge. */
  ghost predicate FractionsInRange(g: Groups) {
    forall c :: 0 <= c < |g| && g[c].onTree ==> 1 <= g[c].vfraction <= ONE
  }

  /** The stored fraction that divides a group's charge. */
  function Divisors(g: Groups): nat -> nat {
    (i: nat) => if i < |g| && g[i].vfraction > 0 then g[i].vfraction else ONE
  }

  /**
   * While the same groups stay on the tree, the service of any two of them is proportional to
   * their stored fractions, up to twice the spread and the rounding of each round.
   */
  lemma ServiceFollowsFractions(g: Groups, t: G.Tree, cs: seq<nat>, x: nat, y: nat, d: int)
    requires FractionsInRange(g) && x < |g| && y < |g| && g[x].onTree && g[y].onTree
    requires G.TreeInv(t) && G.SpreadAtMost(t, d) && G.OnTree(t, x) && G.OnTree(t, y)
    requires forall i :: 0 <= i < |G.ScaledRounds(t, cs, Divisors(g))| ==> G.ScaledRounds(t, cs, Divisors(g))[i] <= d
    ensures var r, s := G.Got(t, cs, Divisors(g), x), G.Got(t, cs, Divisors(g), y);
            r.cost * ONE * ONE * g[y].vfraction - s.cost * ONE * ONE * g[x].vfraction
            <= (2 * d + r.rounds) * (g[x].vfraction * g[y].vfraction)
  {
    G.ProportionalShares(t, cs, Divisors(g), x, y, d);
    assert Divisors(g)(x) == g[x].vfraction && Divisors(g)(y) == g[y].vfraction;
  }

  datatype GroupEvent =
    | Online(parent: nat, weight: nat, leafWeight: nat)
    | Write(i: nat, newWeight: nat, newLeafWeight: nat)
    | Backlogged(i: nat)
    | Emptied(i: nat)

  /**
   * Over any sequence of creations, weight changes, activations and deactivations the sums
   * hold and the stored fraction of every group on the tree lies in 1 to 4096.
   */
  method Run(t: CfqGroups, es: seq<GroupEvent>)
    requires t.Valid() && FractionsInRange(t.g)
    modifies t
    ensures t.Valid() && FractionsInRange(t.g)
  {
    hide Inv;
    for k := 0 to |es|
      invariant t.Valid() && FractionsInRange(t.g)
    {
      match es[k] {
        case Online(parent, weight, leafWeight) =>
          if parent < |t.g| && weight > 0 && leafWeight > 0 {
            t.Create(parent, weight, leafWeight);
          }
        case Write(i, newWeight, newLeafWeight) =>
          if i < |t.g| {
            t.SetPending(i, newWeight, newLeafWeight);
          }
        case Backlogged(i) =>
          if i < |t.g| && !t.g[i].onTree {
            AddInRange(t, i);
          }
        case Emptied(i) =>
          if i < |t.g| && t.g[i].onTree {
            RemoveInRange(t, i);
          }
      }
    }
  }

  /** A deletion clears only fractions of groups that are not on the tree afterwards. */
  method RemoveInRange(t: CfqGroups, i: nat)
    requires t.Valid() && i < |t.g| && t.g[i].onTree && FractionsInRange(t.g)
    modifies t
    ensures t.Valid() && FractionsInRange(t.g)
  {
    hide Inv;
    t.Del(i);
    OnTreeIsActive(t.g);
  }

  lemma OnTreeIsActive(g: Groups)
    requires Inv(g)
    ensures forall c :: 0 <= c < |g| && g[c].onTree ==> Active(g[c])
  {
    forall c | 0 <= c < |g| && g[c].onTree
      ensures Active(g[c])
    {
      assert Balanced(g, Activity(g), c);
      CountersNonNegative(g, Activity(g), c);
    }
  }

  // ---------- 32-bit arithmetic ----------

  const U32: int := 0x1_0000_0000

  /** The largest weight for which a product with the fixed-point one fits 32 bits. */
  const WEIGHT_LIMIT: int := U32 / ONE - 1

  ghost predicate WeightsWithin(g: Groups, limit: int) {
    forall c :: 0 <= c < |g| ==> g[c].weight <= limit && g[c].leafWeight <= limit
  }

  /** The competing weight of a group is at most the limit for each active member. */
  lemma CompetingWeightFits(g: Groups, p: nat, limit: nat)
    requires Inv(g) && WeightsWithin(g, limit) && p < |g|
    ensures 0 <= g[p].childrenWeight <= g[p].nrActive * limit
  {
    var a := Activity(g);
    assert Balanced(g, a, p);
    CountersNonNegative(g, a, p);
    SumWithin(g, a, p, |g|, limit);
    hide Inv;
    if g[p].onTree {
      assert (ActiveChildren(g, a, p, |g|) + 1) * limit == ActiveChildren(g, a, p, |g|) * limit + limit;
    }
  }

  lemma {:induction false} SumWithin(g: Groups, a: seq<bool>, p: nat, k: nat, limit: nat)
    requires |a| == |g| && k <= |g| && WeightsWithin(g, limit)
    ensures WeightOfChildren(g, a, p, k) <= ActiveChildren(g, a, p, k) * limit
  {
    if k > 0 {
      SumWithin(g, a, p, k - 1, limit);
      if Counts(g, a, p, k - 1) {
        var n := ActiveChildren(g, a, p, k - 1);
        assert (n + 1) * limit == n * limit + limit;
      }
    }
  }

  /** At every level of the walk the compounded share stays at most one, and its product fits 32 bits. */
  lemma {:induction false} SharesFit(g: Groups, path: seq<nat>)
    requires Inv(g) && WeightsWithin(g, WEIGHT_LIMIT) && IsPath(g, path) && g[path[0]].onTree
    requires forall j :: 0 <= j < |path| ==> Active(g[path[j]]) && g[path[j]].childrenWeight > 0
    ensures 0 <= PathShare(g, path) <= ONE && ONE * g[path[0]].leafWeight < U32
    ensures 0 <= PathShare(g, path) * g[path[|path| - 1]].weight < U32
    decreases |path|
  {
    var n := |path| - 1;
    var q := path[n];
    assert Balanced(g, Activity(g), q);
    CountersNonNegative(g, Activity(g), q);
    SumNonNegative(g, Activity(g), q, |g|);
    if n == 0 {
      ShareAtMost(ONE, g[q].leafWeight, g[q].childrenWeight);
    } else {
      var c := path[n - 1];
      SharesFit(g, path[..n]);
      assert path[..n][n - 1] == c && q == g[c].parent && c > 0;
      ChildMakesActive(g, Activity(g), c, |g|);
      ShareAtMost(PathShare(g, path[..n]), g[c].weight, g[q].childrenWeight);
    }
    ProductBelow(PathShare(g, path), g[q].weight);
  }

  lemma {:induction false} SumNonNegative(g: Groups, a: seq<bool>, p: nat, k: nat)
    requires |a| == |g| && k <= |g|
    ensures WeightOfChildren(g, a, p, k) >= 0
  {
    if k > 0 {
      SumNonNegative(g, a, p, k - 1);
    }
  }

  lemma ShareAtMost(v: int, w: nat, c: int)
    requires 0 <= v <= ONE && w <= c && c > 0
    ensures 0 <= v * w / c <= ONE
  {
    var q := v * w / c;
    MulMono(w, c, v);
    MulMono(0, w, v);
    assert q * c <= v * w;
    if q > v {
      MulMono(v + 1, q, c);
    }
  }

  lemma MulMono(x: int, y: int, z: int)
    requires x <= y && z >= 0
    ensures x * z <= y * z && z * x <= z * y
  {
  }

  lemma ProductBelow(v: int, w: nat)
    requires 0 <= v <= ONE && w <= WEIGHT_LIMIT
    ensures 0 <= v * w < U32
  {
    MulMono(0, v, w);
    MulMono(v, ONE, w);
    assert ONE * WEIGHT_LIMIT < U32;
  }
}
