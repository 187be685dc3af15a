/**
 * The tree of backlogged groups ordered by virtual disk time: fairness of min-first
 * service with unbounded times.  GroupTree64 refines it in wrapping 64-bit arithmetic.
 */
module GroupTree {
  import opened Seqs
  import opened Ordered
  import opened Kernel

  datatype GNode = GNode(v: int, id: nat)

  const VOf: GNode -> int := (n: GNode) => n.v

  /** Nodes in tree order, and the floor min_vdisktime. */
  datatype Tree = Tree(nodes: seq<GNode>, base: int)

  const EMPTY_TREE := Tree([], 0)

  predicate OnTree(g: Tree, id: nat) {
    exists n :: n in g.nodes && n.id == id
  }

  ghost predicate DistinctGroups(s: seq<GNode>) {
    NoDup(s) && forall n, m :: n in s && m in s && n.id == m.id ==> n == m
  }

  /** Sorted, one node a group, and the floor never passes a group on the tree. */
  ghost predicate TreeInv(g: Tree) {
    && Sorted(VOf, g.nodes)
    && DistinctGroups(g.nodes)
    && forall n :: n in g.nodes ==> g.base <= n.v
  }

  function NodeOf(s: seq<GNode>, id: nat): (n: GNode)
    requires exists n :: n in s && n.id == id
    ensures n in s && n.id == id
  {
    if s[0].id == id then s[0] else NodeOf(s[1..], id)
  }

  /** cfq_group_service_tree_add's ordering part. */
  function Put(g: Tree, n: GNode): Tree {
    g.(nodes := Insert(VOf, g.nodes, n))
  }

  function Take(g: Tree, id: nat): Tree
    requires OnTree(g, id)
  {
    g.(nodes := Remove(g.nodes, NodeOf(g.nodes, id)))
  }

  /** A group that becomes backlogged goes behind the last one. */
  function JoinTime(g: Tree): int {
    if g.nodes == [] then g.base else g.nodes[|g.nodes| - 1].v + CFQ_IDLE_DELAY
  }

  function Join(g: Tree, id: nat): Tree {
    Put(g, GNode(JoinTime(g), id))
  }

  /** cfq_get_next_cfqg: raise the floor to the first group. */
  function GetNext(g: Tree): Tree {
    if g.nodes == [] || g.nodes[0].v <= g.base then g else g.(base := g.nodes[0].v)
  }

  /** cfq_group_served: leave, advance by the scaled charge, come back. */
  function Charged(g: Tree, id: nat, scaled: nat): Tree
    requires OnTree(g, id)
  {
    Put(Take(g, id), GNode(NodeOf(g.nodes, id).v + scaled, id))
  }

  /** cfqg_scale_charge on 64-bit operands that do not overflow. */
  function ScaleCharge(charge: nat, vfraction: nat): nat
    requires vfraction > 0
  {
    charge * ONE * ONE / vfraction
  }

  lemma ScaleChargeAtLeast(charge: nat, vfraction: nat)
    requires 0 < vfraction <= ONE
    ensures ScaleCharge(charge, vfraction) >= charge * ONE
    ensures ScaleCharge(charge, vfraction) >= ONE <==> charge > 0
  {
    DivAtLeast(charge * ONE, ONE, vfraction);
    if charge == 0 {
      assert ScaleCharge(0, vfraction) == 0;
    }
  }

  /** cfqg_scale_charge as the source computes it: the shift wraps at 2^64. */
  function ScaleCharge64(charge: nat, vfraction: nat): int
    requires vfraction > 0
  {
    Wrap(charge * ONE * ONE) / vfraction
  }

  /** The wrapped result is the exact one if and only if the charge is below 2^40; at 2^40 it is zero. */
  lemma ScaleFitsBelow40Bits(charge: nat, vfraction: nat)
    requires 0 < vfraction <= ONE
    ensures ScaleCharge64(charge, vfraction) == ScaleCharge(charge, vfraction) <==> charge < 0x100_0000_0000
    ensures ScaleCharge64(0x100_0000_0000, vfraction) == 0
  {
    var c := charge * ONE * ONE;
    assert 0x100_0000_0000 * ONE * ONE == U64;
    if charge >= 0x100_0000_0000 {
      assert Wrap(c) <= c - U64 by { WrapDrops(c); }
      Quotient(Wrap(c), vfraction);
      Quotient(c, vfraction);
    }
  }

  lemma WrapDrops(c: int)
    requires c >= U64
    ensures Wrap(c) <= c - U64
  {
    assert c == c / U64 * U64 + c % U64;
    assert c / U64 >= 1;
  }

  lemma Quotient(x: int, d: nat)
    requires 0 <= x && d > 0
    ensures x / d * d <= x < x / d * d + d
  {
  }

  lemma DivAtLeast(x: nat, a: nat, b: nat)
    requires 0 < b <= a
    ensures x * a / b >= x
  {
    MulMono(b, a, x);
    var q := x * a / b;
    assert x * a < (q + 1) * b;
    if q < x {
      MulMono(q + 1, x, b);
      assert false;
    }
  }

  lemma MulMono(x: nat, y: nat, z: nat)
    requires x <= y
    ensures x * z <= y * z
  {
  }

  lemma PutKeepsInv(g: Tree, n: GNode)
    requires TreeInv(g) && !OnTree(g, n.id) && g.base <= n.v
    ensures TreeInv(Put(g, n))
    ensures forall m :: m in Put(g, n).nodes <==> m == n || m in g.nodes
    ensures forall id :: OnTree(Put(g, n), id) <==> id == n.id || OnTree(g, id)
    ensures |Put(g, n).nodes| == |g.nodes| + 1
  {
    InsertSorted(VOf, g.nodes, n);
    InsertMembers(VOf, g.nodes, n);
    assert n in Put(g, n).nodes;
  }

  lemma TakeKeepsInv(g: Tree, id: nat)
    requires TreeInv(g) && OnTree(g, id)
    ensures TreeInv(Take(g, id)) && !OnTree(Take(g, id), id)
    ensures forall m :: m in Take(g, id).nodes <==> m in g.nodes && m.id != id
    ensures forall j :: OnTree(Take(g, id), j) <==> OnTree(g, j) && j != id
    ensures |Take(g, id).nodes| == |g.nodes| - 1
  {
    var n := NodeOf(g.nodes, id);
    RemoveSorted(VOf, g.nodes, n);
    RemoveMembers(g.nodes, n);
    RemoveMultiset(g.nodes, n);
  }

  lemma NodeOfUnique(s: seq<GNode>, i: nat)
    requires i < |s| && DistinctGroups(s)
    ensures NodeOf(s, s[i].id) == s[i]
  {
  }

  lemma ChargedKeepsInv(g: Tree, id: nat, scaled: nat)
    requires TreeInv(g) && OnTree(g, id)
    ensures TreeInv(Charged(g, id, scaled)) && Charged(g, id, scaled).base == g.base
    ensures forall j :: OnTree(Charged(g, id, scaled), j) <==> OnTree(g, j)
  {
    TakeKeepsInv(g, id);
    PutKeepsInv(Take(g, id), GNode(NodeOf(g.nodes, id).v + scaled, id));
  }

  lemma JoinKeepsInv(g: Tree, id: nat)
    requires TreeInv(g) && !OnTree(g, id)
    ensures TreeInv(Join(g, id)) && Join(g, id).base == g.base
    ensures forall j :: OnTree(Join(g, id), j) <==> j == id || OnTree(g, j)
  {
    PutKeepsInv(g, GNode(JoinTime(g), id));
  }

  lemma GetNextKeepsInv(g: Tree)
    requires TreeInv(g)
    ensures TreeInv(GetNext(g)) && GetNext(g).base >= g.base && GetNext(g).nodes == g.nodes
  {
    if g.nodes != [] {
      assert forall i :: 0 < i < |g.nodes| ==> VOf(g.nodes[0]) <= VOf(g.nodes[i]);
    }
  }

  // ---------- runs ----------

  /**
   * One service round of the first group, a group joining or leaving, and the parts of a
   * round apart: the lookup that raises the floor, the activation of a queue of some group
   * (as the schedule has it or as a close cooperator), and the charge of that group.
   */
  datatype Event =
    | Round(scaled: nat)
    | Joins(id: nat)
    | Leaves(id: nat)
    | Raises
    | Activates(id: nat, coop: bool)
    | Serves(id: nat, scaled: nat)

  function Step(g: Tree, e: Event): Tree {
    match e
    case Round(c) =>
      if g.nodes == [] then g
      else
        var h := GetNext(g);
        assert h.nodes[0] in h.nodes;
        Charged(h, h.nodes[0].id, c)
    case Joins(id) => if OnTree(g, id) then g else Join(g, id)
    case Leaves(id) => if OnTree(g, id) then Take(g, id) else g
    case Raises => GetNext(g)
    case Activates(_, _) => g
    case Serves(id, c) => if OnTree(g, id) then Charged(g, id, c) else g
  }

  function Run(g: Tree, es: seq<Event>): Tree
    decreases |es|
  {
    if es == [] then g else Run(Step(g, es[0]), es[1..])
  }

  lemma StepKeepsInv(g: Tree, e: Event)
    requires TreeInv(g)
    ensures TreeInv(Step(g, e)) && Step(g, e).base >= g.base
  {
    match e {
      case Round(c) =>
        if g.nodes != [] {
          GetNextKeepsInv(g);
          assert g.nodes[0] in GetNext(g).nodes;
          ChargedKeepsInv(GetNext(g), g.nodes[0].id, c);
        }
      case Joins(id) => if !OnTree(g, id) { JoinKeepsInv(g, id); }
      case Leaves(id) => if OnTree(g, id) { TakeKeepsInv(g, id); }
      case Raises => GetNextKeepsInv(g);
      case Activates(_, _) =>
      case Serves(id, c) => if OnTree(g, id) { ChargedKeepsInv(g, id, c); }
    }
  }

  /** Over any run the floor only rises and never passes a group on the tree. */
  lemma {:induction false} FloorNeverPasses(g: Tree, es: seq<Event>)
    requires TreeInv(g)
    ensures TreeInv(Run(g, es)) && Run(g, es).base >= g.base
    decreases |es|
  {
    if es != [] {
      StepKeepsInv(g, es[0]);
      FloorNeverPasses(Step(g, es[0]), es[1..]);
    }
  }

  // ---------- spread ----------

  ghost predicate SpreadAtMost(g: Tree, d: int) {
    forall i, j :: 0 <= i < |g.nodes| && 0 <= j < |g.nodes| ==> g.nodes[i].v - g.nodes[j].v <= d
  }

  lemma RoundMembers(g: Tree, c: nat)
    requires TreeInv(g) && g.nodes != []
    ensures var f, u := g.nodes[0], Step(g, Round(c));
            && TreeInv(u)
            && (forall m :: m in u.nodes <==> m == GNode(f.v + c, f.id) || (m in g.nodes && m.id != f.id))
            && (forall id :: OnTree(u, id) <==> OnTree(g, id))
  {
    var h := GetNext(g);
    GetNextKeepsInv(g);
    assert h.nodes[0] in h.nodes;
    TakeKeepsInv(h, h.nodes[0].id);
    NodeOfUnique(h.nodes, 0);
    PutKeepsInv(Take(h, h.nodes[0].id), GNode(h.nodes[0].v + c, h.nodes[0].id));
  }

  /** For a fixed set of groups a round never spreads them wider than its own charge. */
  lemma RoundSpread(g: Tree, c: nat, d: int)
    requires TreeInv(g) && SpreadAtMost(g, d) && c <= d
    ensures SpreadAtMost(Step(g, Round(c)), d)
  {
    if g.nodes != [] {
      var u := Step(g, Round(c));
      RoundMembers(g, c);
      var f := g.nodes[0];
      forall i, j | 0 <= i < |u.nodes| && 0 <= j < |u.nodes|
        ensures u.nodes[i].v - u.nodes[j].v <= d
      {
        assert u.nodes[i] in u.nodes && u.nodes[j] in u.nodes;
        RoundNodeRange(g, c, u.nodes[i], d);
        RoundNodeRange(g, c, u.nodes[j], d);
      }
    }
  }

  lemma RoundNodeRange(g: Tree, c: nat, m: GNode, d: int)
    requires TreeInv(g) && SpreadAtMost(g, d) && c <= d && g.nodes != []
    requires m == GNode(g.nodes[0].v + c, g.nodes[0].id) || m in g.nodes
    ensures g.nodes[0].v <= m.v <= g.nodes[0].v + d
  {
    if m in g.nodes {
      var i :| 0 <= i < |g.nodes| && g.nodes[i] == m;
      assert i > 0 ==> VOf(g.nodes[0]) <= VOf(g.nodes[i]);
    }
  }

  function RoundsOf(cs: seq<nat>): seq<Event> {
    if cs == [] then [] else [Round(cs[0])] + RoundsOf(cs[1..])
  }

  lemma FirstRound(g: Tree, cs: seq<nat>)
    requires cs != []
    ensures Run(g, RoundsOf(cs)) == Run(Step(g, Round(cs[0])), RoundsOf(cs[1..]))
  {
    assert RoundsOf(cs)[1..] == RoundsOf(cs[1..]);
  }

  /** So the spread never exceeds the larger of the initial one and the largest charge. */
  lemma {:induction false} SpreadOverRounds(g: Tree, cs: seq<nat>, d: int)
    requires TreeInv(g) && SpreadAtMost(g, d)
    requires forall i :: 0 <= i < |cs| ==> cs[i] <= d
    ensures SpreadAtMost(Run(g, RoundsOf(cs)), d)
    decreases |cs|
  {
    if cs != [] {
      var es := RoundsOf(cs);
      assert es[1..] == RoundsOf(cs[1..]);
      RoundSpread(g, cs[0], d);
      StepKeepsInv(g, es[0]);
      SpreadOverRounds(Step(g, es[0]), cs[1..], d);
    }
  }

  // ---------- shares ----------

  /** The scaled charges of rounds on the first group that cost cs, with the groups' fractions vf. */
  function ScaledRounds(g: Tree, cs: seq<nat>, vf: nat -> nat): seq<nat>
    requires forall id :: vf(id) > 0
    decreases |cs|
  {
    if cs == [] || g.nodes == [] then []
    else
      var c := ScaleCharge(cs[0], vf(g.nodes[0].id));
      [c] + ScaledRounds(Step(g, Round(c)), cs[1..], vf)
  }

  /** What group x gets in those rounds: its cost, its scaled charge and its number of rounds. */
  datatype Service = Service(cost: nat, scaled: nat, rounds: nat)

  function Got(g: Tree, cs: seq<nat>, vf: nat -> nat, x: nat): Service
    requires forall id :: vf(id) > 0
    decreases |cs|
  {
    if cs == [] || g.nodes == [] then Service(0, 0, 0)
    else
      var c := ScaleCharge(cs[0], vf(g.nodes[0].id));
      var rest := Got(Step(g, Round(c)), cs[1..], vf, x);
      if g.nodes[0].id == x then Service(rest.cost + cs[0], rest.scaled + c, rest.rounds + 1) else rest
  }

  /** Up to the rounding of each round, the scaled charge is the cost divided by the fraction. */
  lemma {:induction false} CostOverFraction(g: Tree, cs: seq<nat>, vf: nat -> nat, x: nat)
    requires forall id :: vf(id) > 0
    ensures var s := Got(g, cs, vf, x);
            s.scaled * vf(x) <= s.cost * ONE * ONE <= (s.scaled + s.rounds) * vf(x)
    decreases |cs|
  {
    hide Step, ScaleCharge;
    if cs != [] && g.nodes != [] {
      var c := ScaleCharge(cs[0], vf(g.nodes[0].id));
      var rest := Got(Step(g, Round(c)), cs[1..], vf, x);
      CostOverFraction(Step(g, Round(c)), cs[1..], vf, x);
      if g.nodes[0].id == x {
        ScaleIsQuotient(cs[0], vf(x));
        SumOfQuotients(rest.scaled, rest.cost * ONE * ONE, rest.rounds, c, cs[0] * ONE * ONE, vf(x));
      }
    }
  }

  lemma ScaleIsQuotient(charge: nat, vfraction: nat)
    requires vfraction > 0
    ensures var c := ScaleCharge(charge, vfraction);
            c * vfraction <= charge * ONE * ONE < c * vfraction + vfraction
  {
    Quotient(charge * ONE * ONE, vfraction);
  }

  lemma SumOfQuotients(q: nat, x: nat, n: nat, c: nat, y: nat, f: nat)
    requires q * f <= x <= (q + n) * f && c * f <= y < c * f + f
    ensures (q + c) * f <= x + y <= (q + c + (n + 1)) * f
  {
    assert (q + c) * f == q * f + c * f;
    assert (q + c + (n + 1)) * f == (q + n) * f + c * f + f;
  }

  /** The time of a group that stays advances by its scaled charges. */
  lemma {:induction false} TimeAdvances(g: Tree, cs: seq<nat>, vf: nat -> nat, x: nat, w: int)
    requires TreeInv(g) && GNode(w, x) in g.nodes && forall id :: vf(id) > 0
    ensures GNode(w + Got(g, cs, vf, x).scaled, x) in Run(g, RoundsOf(ScaledRounds(g, cs, vf))).nodes
    decreases |cs|
  {
    hide Step, ScaleCharge, Run, TreeInv;
    if cs == [] {
      RunNothing(g);
    } else {
      var c := ScaleCharge(cs[0], vf(g.nodes[0].id));
      var u, scaled := Step(g, Round(c)), ScaledRounds(g, cs, vf);
      RoundMembers(g, c);
      FirstRound(g, scaled);
      assert scaled[1..] == ScaledRounds(u, cs[1..], vf);
      if g.nodes[0].id == x {
        SameNode(g, g.nodes[0], GNode(w, x));
        TimeAdvances(u, cs[1..], vf, x, w + c);
      } else {
        TimeAdvances(u, cs[1..], vf, x, w);
      }
    }
  }

  /**
   * Proportional fairness: among a fixed set of groups whose spread and charges are at most d,
   * the scaled charges of any two groups differ by at most 2 * d over any number of rounds, and
   * so the service of each, divided by its fraction, up to the rounding of its rounds.
   */
  lemma ProportionalShares(g: Tree, cs: seq<nat>, vf: nat -> nat, x: nat, y: nat, d: int)
    requires TreeInv(g) && SpreadAtMost(g, d) && OnTree(g, x) && OnTree(g, y) && forall id :: vf(id) > 0
    requires forall i :: 0 <= i < |ScaledRounds(g, cs, vf)| ==> ScaledRounds(g, cs, vf)[i] <= d
    ensures var s, t := Got(g, cs, vf, x), Got(g, cs, vf, y);
            && s.scaled - t.scaled <= 2 * d
            && s.cost * ONE * ONE * vf(y) - t.cost * ONE * ONE * vf(x) <= (2 * d + s.rounds) * (vf(x) * vf(y))
  {
    hide Got, ScaledRounds, Run, RoundsOf, TreeInv, SpreadAtMost;
    var s, t := Got(g, cs, vf, x), Got(g, cs, vf, y);
    var m, n := NodeOf(g.nodes, x), NodeOf(g.nodes, y);
    var es := RoundsOf(ScaledRounds(g, cs, vf));
    TimeAdvances(g, cs, vf, x, m.v);
    TimeAdvances(g, cs, vf, y, n.v);
    SpreadOverRounds(g, ScaledRounds(g, cs, vf), d);
    SpreadOf(g, m, n, d);
    SpreadOf(Run(g, es), GNode(m.v + s.scaled, x), GNode(n.v + t.scaled, y), d);
    CostOverFraction(g, cs, vf, x);
    CostOverFraction(g, cs, vf, y);
    CrossShares(s.cost * ONE * ONE, s.scaled, s.rounds, vf(x), t.cost * ONE * ONE, t.scaled, vf(y), 2 * d);
  }

  lemma SameNode(g: Tree, m: GNode, n: GNode)
    requires TreeInv(g) && m in g.nodes && n in g.nodes && m.id == n.id
    ensures m == n
  {
  }

  lemma RunNothing(g: Tree)
    ensures Run(g, RoundsOf([])) == g
  {
  }

  lemma SpreadOf(g: Tree, m: GNode, n: GNode, d: int)
    requires SpreadAtMost(g, d) && m in g.nodes && n in g.nodes
    ensures -d <= m.v - n.v <= d
  {
    var i :| 0 <= i < |g.nodes| && g.nodes[i] == m;
    var j :| 0 <= j < |g.nodes| && g.nodes[j] == n;
    assert g.nodes[j].v - g.nodes[i].v <= d;
  }

  lemma CrossShares(a: nat, s: nat, k: nat, f: nat, b: nat, t: nat, h: nat, e: int)
    requires a <= (s + k) * f && t * h <= b && s - t <= e
    ensures a * h - b * f <= (e + k) * (f * h)
  {
    assert a * h <= (s + k) * f * h;
    assert b * f >= t * h * f;
    assert (s + k) * f * h - t * h * f == (s + k - t) * (f * h);
    assert (s + k - t) * (f * h) <= (e + k) * (f * h);
  }

  // ---------- bounded waiting ----------

  /** Rounds a group at time v can still take before one waiting at time w. */
  function Ahead(v: int, w: int): nat {
    if v <= w then (w - v) / ONE + 1 else 0
  }

  /** Total number of rounds the groups other than x can take before time w. */
  function Backlog(s: seq<GNode>, x: nat, w: int): nat {
    if s == [] then 0
    else (if s[0].id == x then 0 else Ahead(s[0].v, w)) + Backlog(s[1..], x, w)
  }

  lemma {:induction false} BacklogAppend(a: seq<GNode>, b: seq<GNode>, x: nat, w: int)
    ensures Backlog(a + b, x, w) == Backlog(a, x, w) + Backlog(b, x, w)
  {
    if a == [] {
      assert a + b == b;
    } else {
      assert (a + b)[1..] == a[1..] + b;
      BacklogAppend(a[1..], b, x, w);
    }
  }

  lemma BacklogPut(g: Tree, n: GNode, x: nat, w: int)
    ensures Backlog(Put(g, n).nodes, x, w) ==
            Backlog(g.nodes, x, w) + if n.id == x then 0 else Ahead(n.v, w)
  {
    var k := Rank(VOf, g.nodes, n.v);
    BacklogAppend(g.nodes[..k] + [n], g.nodes[k..], x, w);
    BacklogAppend(g.nodes[..k], [n], x, w);
    BacklogAppend(g.nodes[..k], g.nodes[k..], x, w);
    assert g.nodes == g.nodes[..k] + g.nodes[k..];
    assert Backlog([n], x, w) == if n.id == x then 0 else Ahead(n.v, w);
  }

  lemma {:induction false} BacklogRemove(s: seq<GNode>, n: GNode, x: nat, w: int)
    requires n in s
    ensures Backlog(Remove(s, n), x, w) == Backlog(s, x, w) - if n.id == x then 0 else Ahead(n.v, w)
  {
    if s[0] != n {
      BacklogRemove(s[1..], n, x, w);
      assert ([s[0]] + Remove(s[1..], n))[1..] == Remove(s[1..], n);
    }
  }

  ghost predicate WaitsAt(g: Tree, x: nat, w: int) {
    GNode(w, x) in g.nodes
  }

  ghost predicate IsFirst(g: Tree, id: nat) {
    g.nodes != [] && g.nodes[0].id == id
  }

  /** Event e charges group x. */
  ghost predicate ServesGroup(g: Tree, e: Event, x: nat) {
    if e.Round? then IsFirst(g, x) else e.Serves? && e.id == x
  }

  /** Some event of the run serves x. */
  ghost predicate Served(g: Tree, es: seq<Event>, x: nat)
    decreases |es|
  {
    es != [] && (ServesGroup(g, es[0], x) || Served(Step(g, es[0]), es[1..], x))
  }

  /** Event e charges the first group at least one fixed-point unit. */
  ghost predicate PaysFirst(g: Tree, e: Event) {
    (e.Round? || (e.Serves? && IsFirst(g, e.id))) && e.scaled >= ONE
  }

  /** The rounds that advance the first group by at least one fixed-point unit. */
  ghost function Paid(g: Tree, es: seq<Event>): nat
    decreases |es|
  {
    if es == [] then 0 else (if PaysFirst(g, es[0]) then 1 else 0) + Paid(Step(g, es[0]), es[1..])
  }

  /** A round takes the first group off and puts it back at its charged time. */
  lemma RoundIs(g: Tree, c: nat)
    requires TreeInv(g) && g.nodes != []
    ensures var h, f := GetNext(g), g.nodes[0];
            Step(g, Round(c)) == Put(Take(h, f.id), GNode(f.v + c, f.id)) && Take(h, f.id).nodes == Remove(g.nodes, f)
  {
    hide Put, Remove;
    var h := GetNext(g);
    NodeOfUnique(h.nodes, 0);
    assert h.nodes[0] in h.nodes && NodeOf(h.nodes, h.nodes[0].id) == h.nodes[0];
  }

  lemma WaiterRound(g: Tree, c: nat, x: nat, w: int)
    requires TreeInv(g) && WaitsAt(g, x, w) && g.nodes[0].id != x
    ensures WaitsAt(Step(g, Round(c)), x, w)
    ensures Backlog(Step(g, Round(c)).nodes, x, w) + (if c >= ONE then 1 else 0) <= Backlog(g.nodes, x, w)
  {
    var f := g.nodes[0];
    RoundMembers(g, c);
    RoundIs(g, c);
    var xi :| 0 <= xi < |g.nodes| && g.nodes[xi] == GNode(w, x);
    assert VOf(f) <= VOf(g.nodes[xi]);
    hide Step, GetNext, Put, Take, TreeInv, Backlog;
    BacklogRemove(g.nodes, f, x, w);
    BacklogPut(Take(GetNext(g), f.id), GNode(f.v + c, f.id), x, w);
    AheadDrops(f.v, c, w);
  }

  lemma WaiterStep(g: Tree, e: Event, x: nat, w: int)
    requires TreeInv(g) && WaitsAt(g, x, w)
    requires e != Leaves(x) && !ServesGroup(g, e, x)
    ensures WaitsAt(Step(g, e), x, w)
    ensures Backlog(Step(g, e).nodes, x, w) + (if PaysFirst(g, e) then 1 else 0) <= Backlog(g.nodes, x, w)
  {
    assert e.Raises? || e.Activates? ==> Step(g, e).nodes == g.nodes;
    hide Step, Backlog, TreeInv;
    match e {
      case Round(c) => WaiterRound(g, c, x, w);
      case Joins(id) => WaiterJoined(g, id, x, w);
      case Leaves(id) => WaiterLeft(g, id, x, w);
      case Raises =>
      case Activates(_, _) =>
      case Serves(id, c) => WaiterServes(g, id, c, x, w);
    }
  }

  lemma WaiterJoined(g: Tree, id: nat, x: nat, w: int)
    requires TreeInv(g) && WaitsAt(g, x, w)
    ensures WaitsAt(Step(g, Joins(id)), x, w)
    ensures Backlog(Step(g, Joins(id)).nodes, x, w) <= Backlog(g.nodes, x, w)
  {
    if !OnTree(g, id) {
      var n := GNode(JoinTime(g), id);
      JoinKeepsInv(g, id);
      PutKeepsInv(g, n);
      BacklogPut(g, n, x, w);
      var xi :| 0 <= xi < |g.nodes| && g.nodes[xi] == GNode(w, x);
      assert xi < |g.nodes| - 1 ==> VOf(g.nodes[xi]) <= VOf(g.nodes[|g.nodes| - 1]);
    }
  }

  lemma WaiterLeft(g: Tree, id: nat, x: nat, w: int)
    requires TreeInv(g) && WaitsAt(g, x, w) && id != x
    ensures WaitsAt(Step(g, Leaves(id)), x, w)
    ensures Backlog(Step(g, Leaves(id)).nodes, x, w) <= Backlog(g.nodes, x, w)
  {
    if OnTree(g, id) {
      TakeKeepsInv(g, id);
      BacklogRemove(g.nodes, NodeOf(g.nodes, id), x, w);
    }
  }

  /** A charge of another group, which is paid ahead of x only if that group is first. */
  lemma WaiterServes(g: Tree, id: nat, c: nat, x: nat, w: int)
    requires TreeInv(g) && WaitsAt(g, x, w) && id != x
    ensures WaitsAt(Step(g, Serves(id, c)), x, w)
    ensures Backlog(Step(g, Serves(id, c)).nodes, x, w) + (if PaysFirst(g, Serves(id, c)) then 1 else 0)
            <= Backlog(g.nodes, x, w)
  {
    if OnTree(g, id) {
      ServesAhead(g, id, c, x, w);
    } else {
      assert !IsFirst(g, id) by {
        assert g.nodes[0] in g.nodes;
      }
    }
  }

  lemma ServesAhead(g: Tree, id: nat, c: nat, x: nat, w: int)
    requires TreeInv(g) && WaitsAt(g, x, w) && id != x && OnTree(g, id)
    ensures WaitsAt(Step(g, Serves(id, c)), x, w)
    ensures Backlog(Step(g, Serves(id, c)).nodes, x, w) + (if PaysFirst(g, Serves(id, c)) then 1 else 0)
            <= Backlog(g.nodes, x, w)
  {
    hide Step, TreeInv, Backlog, Put, Take, Remove, Ahead, WaitsAt;
    ServesBacklog(g, id, c, x, w);
    AheadNeverRises(NodeOf(g.nodes, id).v, c, w);
    if IsFirst(g, id) {
      FirstIsAhead(g, id, x, w);
      AheadDrops(NodeOf(g.nodes, id).v, c, w);
    }
  }

  lemma ServesBacklog(g: Tree, id: nat, c: nat, x: nat, w: int)
    requires TreeInv(g) && WaitsAt(g, x, w) && id != x && OnTree(g, id)
    ensures WaitsAt(Step(g, Serves(id, c)), x, w)
    ensures var v := NodeOf(g.nodes, id).v;
            Backlog(Step(g, Serves(id, c)).nodes, x, w) == Backlog(g.nodes, x, w) - Ahead(v, w) + Ahead(v + c, w)
  {
    hide Step, TreeInv, Backlog, Put, Take, Remove, Ahead, WaitsAt;
    ServesIs(g, id, c, x, w);
    BacklogRemove(g.nodes, NodeOf(g.nodes, id), x, w);
    BacklogPut(Take(g, id), GNode(NodeOf(g.nodes, id).v + c, id), x, w);
  }

  lemma ServesIs(g: Tree, id: nat, c: nat, x: nat, w: int)
    requires TreeInv(g) && WaitsAt(g, x, w) && id != x && OnTree(g, id)
    ensures var n := NodeOf(g.nodes, id);
            && Step(g, Serves(id, c)) == Put(Take(g, id), GNode(n.v + c, id))
            && Take(g, id).nodes == Remove(g.nodes, n)
    ensures WaitsAt(Step(g, Serves(id, c)), x, w)
  {
    TakeKeepsInv(g, id);
    PutKeepsInv(Take(g, id), GNode(NodeOf(g.nodes, id).v + c, id));
    hide TreeInv, Put, Remove;
  }

  lemma FirstIsAhead(g: Tree, id: nat, x: nat, w: int)
    requires TreeInv(g) && WaitsAt(g, x, w) && IsFirst(g, id)
    ensures OnTree(g, id) && NodeOf(g.nodes, id).v <= w
  {
    NodeOfUnique(g.nodes, 0);
    assert g.nodes[0] in g.nodes;
    var xi :| 0 <= xi < |g.nodes| && g.nodes[xi] == GNode(w, x);
    assert xi > 0 ==> VOf(g.nodes[0]) <= VOf(g.nodes[xi]);
  }

  lemma AheadNeverRises(v: int, c: nat, w: int)
    ensures Ahead(v + c, w) <= Ahead(v, w)
  {
    if v + c <= w {
      assert (w - v - c) / ONE <= (w - v) / ONE;
    }
  }

  lemma AheadDrops(v: int, c: nat, w: int)
    requires v <= w
    ensures Ahead(v + c, w) + (if c >= ONE then 1 else 0) <= Ahead(v, w)
  {
    if v + c <= w {
      assert (w - v - c) / ONE <= (w - v) / ONE;
      if c >= ONE {
        assert (w - v - c) / ONE <= (w - v - ONE) / ONE == (w - v) / ONE - 1;
      }
    }
  }

  /**
   * Bounded waiting: whatever joins, leaves and rejoins, a waiting group is served once
   * more paid rounds have passed than the others can take before its time.  Rounds that
   * charge nothing, and charges of groups that are not first, may come between.
   */
  lemma {:induction false} WaiterIsServed(g: Tree, es: seq<Event>, x: nat, w: int)
    requires TreeInv(g) && WaitsAt(g, x, w)
    requires forall i :: 0 <= i < |es| ==> es[i] != Leaves(x)
    requires Paid(g, es) > Backlog(g.nodes, x, w)
    ensures Served(g, es, x)
    decreases |es|
  {
    if !ServesGroup(g, es[0], x) {
      WaiterStep(g, es[0], x, w);
      StepKeepsInv(g, es[0]);
      WaiterIsServed(Step(g, es[0]), es[1..], x, w);
    }
  }

  /** The bound in terms of the spread: at most (spread / 4096 + 1) rounds a group. */
  lemma {:induction false} BacklogBound(s: seq<GNode>, x: nat, w: int, d: nat)
    requires forall i :: 0 <= i < |s| ==> w - s[i].v <= d
    ensures Backlog(s, x, w) <= |s| * (d / ONE + 1)
  {
    if s != [] {
      BacklogBound(s[1..], x, w, d);
      assert Ahead(s[0].v, w) <= d / ONE + 1 by {
        if s[0].v <= w {
          assert (w - s[0].v) / ONE <= d / ONE;
        }
      }
      assert |s| * (d / ONE + 1) == (|s| - 1) * (d / ONE + 1) + (d / ONE + 1);
    }
  }

  /** Waiting bound from the spread alone. */
  lemma BoundedWait(g: Tree, es: seq<Event>, x: nat, w: int, d: nat)
    requires TreeInv(g) && WaitsAt(g, x, w) && SpreadAtMost(g, d)
    requires forall i :: 0 <= i < |es| ==> es[i] != Leaves(x)
    requires Paid(g, es) > |g.nodes| * (d / ONE + 1)
    ensures Served(g, es, x)
  {
    var xi :| 0 <= xi < |g.nodes| && g.nodes[xi] == GNode(w, x);
    assert forall i :: 0 <= i < |g.nodes| ==> g.nodes[xi].v - g.nodes[i].v <= d;
    BacklogBound(g.nodes, x, w, d);
    WaiterIsServed(g, es, x, w);
  }

  // ---------- the charge ----------

  /** What cfq_group_served charges (before scaling), from the queue's slice fields. */
  function SliceUsage(sliceStart: nat, dispatchStart: nat, slice: nat, now: nat, jiffy: nat): int {
    if sliceStart == 0 || sliceStart == now then
      (if now - dispatchStart > jiffy then now - dispatchStart else jiffy)
    else if now - sliceStart > slice then slice else now - sliceStart
  }

  function Charge(iops: bool, sync: bool, nrSync: nat, sliceDispatch: nat,
                  sliceStart: nat, dispatchStart: nat, slice: nat, now: nat, jiffy: nat): int {
    if iops then sliceDispatch
    else if !sync && nrSync == 0 then slice
    else SliceUsage(sliceStart, dispatchStart, slice, now, jiffy)
  }

  /**
   * A slice is charged nothing exactly when it is counted in requests and dispatched
   * none, or is measured against a slice length that was never set.
   */
  lemma ChargeIsZero(iops: bool, sync: bool, nrSync: nat, sliceDispatch: nat,
                     sliceStart: nat, dispatchStart: nat, slice: nat, now: nat, jiffy: nat)
    requires sliceStart <= now && dispatchStart <= now && jiffy > 0
    ensures Charge(iops, sync, nrSync, sliceDispatch, sliceStart, dispatchStart, slice, now, jiffy) == 0 <==>
            if iops then sliceDispatch == 0
            else slice == 0 && ((!sync && nrSync == 0) || (sliceStart != 0 && sliceStart != now))
  {
  }

  function ZeroRounds(n: nat): seq<Event> {
    if n == 0 then [] else [Round(0)] + ZeroRounds(n - 1)
  }

  /**
   * With zero charges alone, n rounds serve the group at place i if and only if it ties with
   * the first one, i being its place among the tied groups, and i < n.  All others starve.
   */
  lemma {:induction false} ZeroChargeStarves(g: Tree, n: nat, i: nat)
    requires TreeInv(g) && i < |g.nodes|
    ensures Served(g, ZeroRounds(n), g.nodes[i].id) <==> g.nodes[i].v == g.nodes[0].v && i < n
    decreases n
  {
    hide Step, TreeInv;
    if n > 0 {
      var u, es := Step(g, Round(0)), ZeroRounds(n);
      assert es[0] == Round(0) && es[1..] == ZeroRounds(n - 1);
      ZeroRoundRotates(g, i);
      if i > 0 {
        ZeroChargeStarves(u, n - 1, if g.nodes[i].v == g.nodes[0].v then i - 1 else i);
      }
    }
  }

  /** Behind a group at most as late, linking keeps a node's place; ahead of it the place moves back by one. */
  lemma PlaceAfterInsert(s: seq<GNode>, f: GNode, j: nat)
    requires Sorted(VOf, s) && j < |s| && forall k :: 0 <= k < |s| ==> f.v <= s[k].v
    ensures Insert(VOf, s, f)[if s[j].v == f.v then j else j + 1] == s[j]
    ensures Insert(VOf, s, f)[0].v == f.v
  {
    var r := Rank(VOf, s, f.v);
    assert forall k :: 0 <= k < |s| ==> VOf(s[k]) == s[k].v;
    if r <= j {
      assert r < j ==> VOf(s[r]) <= VOf(s[j]);
    }
  }

  lemma ZeroRoundInserts(g: Tree)
    requires TreeInv(g) && g.nodes != []
    ensures Step(g, Round(0)).nodes == Insert(VOf, g.nodes[1..], g.nodes[0])
  {
    RoundIs(g, 0);
    assert Remove(g.nodes, g.nodes[0]) == g.nodes[1..];
    hide Step, GetNext, TreeInv, Rank;
  }

  lemma SortedTail(s: seq<GNode>)
    requires Sorted(VOf, s) && s != []
    ensures Sorted(VOf, s[1..]) && forall k :: 0 <= k < |s[1..]| ==> s[0].v <= s[1..][k].v
  {
    assert forall k :: 0 < k < |s| ==> VOf(s[0]) <= VOf(s[k]);
  }

  /** A zero-charged round moves the first group behind those that tie with it, and nothing else. */
  lemma ZeroRoundRotates(g: Tree, i: nat)
    requires TreeInv(g) && i < |g.nodes|
    ensures var u := Step(g, Round(0));
            TreeInv(u) && |u.nodes| == |g.nodes| && u.nodes[0].v == g.nodes[0].v
    ensures var u := Step(g, Round(0)).nodes;
            i > 0 ==>
              && u[if g.nodes[i].v == g.nodes[0].v then i - 1 else i] == g.nodes[i]
              && g.nodes[i].id != g.nodes[0].id
  {
    StepKeepsInv(g, Round(0));
    ZeroRoundInserts(g);
    assert Sorted(VOf, g.nodes);
    if i > 0 {
      OneNodeEach(g, i);
    }
    hide Step, TreeInv;
    InsertTail(g.nodes, i);
  }

  lemma OneNodeEach(g: Tree, i: nat)
    requires TreeInv(g) && 0 < i < |g.nodes|
    ensures g.nodes[i].id != g.nodes[0].id
  {
    assert g.nodes[0] in g.nodes && g.nodes[i] in g.nodes;
  }

  lemma InsertTail(s: seq<GNode>, i: nat)
    requires Sorted(VOf, s) && i < |s|
    ensures var u := Insert(VOf, s[1..], s[0]);
            |u| == |s| && u[0].v == s[0].v && (i > 0 ==> u[if s[i].v == s[0].v then i - 1 else i] == s[i])
  {
    SortedTail(s);
    InsertSorted(VOf, s[1..], s[0]);
    hide Insert, Sorted;
    if |s| > 1 {
      PlaceAfterInsert(s[1..], s[0], if i > 0 then i - 1 else 0);
    } else {
      OnlyNode(s[0]);
      assert s[1..] == [];
    }
  }

  lemma OnlyNode(f: GNode)
    ensures Insert(VOf, [], f) == [f]
  {
  }
}
