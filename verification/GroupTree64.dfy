/**
 * The group tree as the kernel stores it: unsigned 64-bit times that wrap, compared by
 * their signed distance from min_vdisktime.  It refines GroupTree while all times stay
 * within 2^63 of the floor.
 */
module GroupTree64 {
  import opened Seqs
  import opened Ordered
  import opened Kernel
  import G = GroupTree

  const HALF: int := 0x8000_0000_0000_0000

  /** How many times 2^64 was taken away. */
  function Wraps(x: int): int {
    x / U64
  }

  lemma WrapIs(x: int)
    ensures Wrap(x) == x - Wraps(x) * U64
  {
  }

  /** Reinterpret an unsigned word as a signed one. */
  function Signed(x: int): int {
    if x < HALF then x else x - U64
  }

  /** cfqg_key. */
  function Key(vdisktime: int, minVdisktime: int): int {
    Signed(Wrap(vdisktime - minVdisktime))
  }

  function MaxVdisktime(minVdisktime: int, vdisktime: int): int {
    if Key(vdisktime, minVdisktime) > 0 then vdisktime else minVdisktime
  }

  lemma WrapUnique(x: int, y: int, k: int)
    requires x == y + k * U64 && 0 <= x < U64
    ensures Wrap(y) == x
  {
    WrapIs(y);
    assert (Wraps(y) + k) * U64 == x - Wrap(y);
    assert Wraps(y) + k == 0;
  }

  /** Within the window the wrapped key is the true distance from the floor. */
  lemma KeyIsDistance(v: int, base: int)
    requires -HALF <= v - base < HALF
    ensures Key(Wrap(v), Wrap(base)) == v - base
  {
    WrapIs(v);
    WrapIs(base);
    var d := if v >= base then v - base else v - base + U64;
    WrapUnique(d, Wrap(v) - Wrap(base), Wraps(v) - Wraps(base) + if v >= base then 0 else 1);
  }

  /** Advancing the floor inside the window never reorders two groups. */
  lemma KeyOrderIndependentOfFloor(v: int, w: int, base: int, base': int)
    requires 0 <= v - base < HALF && 0 <= w - base < HALF
    requires 0 <= v - base' < HALF && 0 <= w - base' < HALF
    ensures Key(Wrap(v), Wrap(base)) < Key(Wrap(w), Wrap(base)) <==>
            Key(Wrap(v), Wrap(base')) < Key(Wrap(w), Wrap(base'))
    ensures Key(Wrap(v), Wrap(base)) < Key(Wrap(w), Wrap(base)) <==> v < w
  {
    KeyIsDistance(v, base);
    KeyIsDistance(w, base);
    KeyIsDistance(v, base');
    KeyIsDistance(w, base');
  }

  /** The key of a time at most one wrap past the floor. */
  lemma KeyPastFloor(v: int, base: int)
    requires 0 <= v - base < U64
    ensures Key(Wrap(v), Wrap(base)) == v - base - if v - base < HALF then 0 else U64
  {
    WrapIs(v);
    WrapIs(base);
    WrapUnique(v - base, Wrap(v) - Wrap(base), Wraps(v) - Wraps(base));
  }

  /**
   * The signed order of two times past the floor is that of the times if and only if the later
   * one is within 2^63 of the floor or neither is.
   */
  lemma KeyFlipsOutsideWindow(v: int, w: int, base: int)
    requires 0 <= v - base < w - base < U64
    ensures Key(Wrap(v), Wrap(base)) < Key(Wrap(w), Wrap(base)) <==> w - base < HALF || HALF <= v - base
  {
    KeyPastFloor(v, base);
    KeyPastFloor(w, base);
  }

  /** The time that the wrapped key of v stands for. */
  function Seen(v: int, base: int): int {
    base + Key(Wrap(v), Wrap(base))
  }

  /** It has the same 64-bit word, and is v itself if and only if v is within 2^63 of the floor. */
  lemma SeenIs(v: int, base: int)
    ensures Wrap(Seen(v, base)) == Wrap(v) && -HALF <= Seen(v, base) - base < HALF
    ensures Seen(v, base) == v <==> -HALF <= v - base < HALF
    ensures 0 <= v - base < U64 ==> Seen(v, base) == v - if v - base < HALF then 0 else U64
  {
    var d, k := Wrap(v) - Wrap(base), Wraps(v) - Wraps(base);
    WrapIs(v);
    WrapIs(base);
    WrapIs(d);
    var m := Wraps(v) - Wraps(base) + Wraps(d) + if Wrap(d) < HALF then 0 else 1;
    assert Seen(v, base) == v - m * U64;
    WrapUnique(Wrap(v), Seen(v, base), m - Wraps(v));
    if -HALF <= v - base < HALF {
      KeyIsDistance(v, base);
    }
    if 0 <= v - base < U64 {
      KeyPastFloor(v, base);
    }
  }

  datatype WNode = WNode(vdisktime: int, id: nat)

  ghost predicate InWindow(v: int, base: int) {
    base <= v < base + HALF
  }

  ghost predicate Represents(nodes: seq<WNode>, spec: seq<G.GNode>) {
    && |nodes| == |spec|
    && forall i :: 0 <= i < |nodes| ==> nodes[i] == WNode(Wrap(spec[i].v), spec[i].id)
  }

  ghost predicate Refines(nodes: seq<WNode>, left: Option<WNode>, minVdisktime: int, spec: G.Tree) {
    && G.TreeInv(spec)
    && Represents(nodes, spec.nodes)
    && (forall n :: n in spec.nodes ==> InWindow(n.v, spec.base))
    && minVdisktime == Wrap(spec.base)
    && (left.Some? ==> nodes != [] && left.value == nodes[0])
  }

  /** Linking at position k refines G.Put when k separates the keys as the walk does. */
  lemma LinkRefines(nodes: seq<WNode>, left: Option<WNode>, minVdisktime: int, spec: G.Tree,
                    k: nat, id: nat, v: int)
    requires Refines(nodes, left, minVdisktime, spec) && !G.OnTree(spec, id) && InWindow(v, spec.base)
    requires k == Rank(G.VOf, spec.nodes, v)
    ensures var n := WNode(Wrap(v), id);
            Refines(nodes[..k] + [n] + nodes[k..], if k == 0 then Some(n) else left, minVdisktime,
                    G.Put(spec, G.GNode(v, id)))
  {
    var g, n := G.GNode(v, id), WNode(Wrap(v), id);
    G.PutKeepsInv(spec, g);
    RepresentsInsert(nodes, spec.nodes, k, v, id);
    assert k > 0 ==> (nodes[..k] + [n] + nodes[k..])[0] == nodes[0];
  }

  lemma RepresentsInsert(nodes: seq<WNode>, s: seq<G.GNode>, k: nat, v: int, id: nat)
    requires Represents(nodes, s) && k <= |s|
    ensures Represents(nodes[..k] + [WNode(Wrap(v), id)] + nodes[k..], s[..k] + [G.GNode(v, id)] + s[k..])
  {
  }

  lemma RepresentsRemove(nodes: seq<WNode>, s: seq<G.GNode>, i: nat)
    requires Represents(nodes, s) && i < |s|
    ensures Represents(nodes[..i] + nodes[i + 1..], s[..i] + s[i + 1..])
  {
  }

  lemma EraseRefines(nodes: seq<WNode>, left: Option<WNode>, minVdisktime: int, spec: G.Tree, i: nat)
    requires Refines(nodes, left, minVdisktime, spec) && i < |nodes| && G.OnTree(spec, nodes[i].id)
    ensures Refines(nodes[..i] + nodes[i + 1..], if i == 0 then None else left, minVdisktime,
                    G.Take(spec, nodes[i].id))
  {
    G.NodeOfUnique(spec.nodes, i);
    G.TakeKeepsInv(spec, nodes[i].id);
    RemoveAt(spec.nodes, i);
    RepresentsRemove(nodes, spec.nodes, i);
    assert i > 0 ==> (nodes[..i] + nodes[i + 1..])[0] == nodes[0];
  }

  /** Two entries of one tree are the same node only at the same place. */
  lemma LeftIsFirst(nodes: seq<WNode>, left: Option<WNode>, minVdisktime: int, spec: G.Tree, i: nat)
    requires Refines(nodes, left, minVdisktime, spec) && i < |nodes| && left == Some(nodes[i])
    ensures i == 0
  {
    assert spec.nodes[i] in spec.nodes && spec.nodes[0] in spec.nodes;
    assert spec.nodes[i].id == spec.nodes[0].id;
  }

  /** cfq_data.grp_service_tree. */
  class GroupServiceTree {
    var nodes: seq<WNode>
    var left: Option<WNode>
    var minVdisktime: int
    /** The same tree with times that never wrapped. */
    ghost var spec: G.Tree

    ghost predicate Valid()
      reads this
    {
      Refines(nodes, left, minVdisktime, spec)
    }

    constructor ()
      ensures Valid() && spec == G.EMPTY_TREE
    {
      nodes, left, minVdisktime := [], None, 0;
      spec := G.EMPTY_TREE;
      new;
      WrapUnique(0, 0, 0);
    }

    /**
     * __cfq_group_service_tree_add: link by signed key, and cache a leftmost node.  The node
     * takes the place of the time its key stands for, which is the first place if that time
     * lies before the floor.
     */
    method Link(id: nat, vdisktime: int, ghost v: int)
      requires Valid() && !G.OnTree(spec, id) && vdisktime == Wrap(v)
      modifies this
      ensures var u := Seen(v, old(spec).base);
              if u >= old(spec).base then Valid() && spec == G.Put(old(spec), G.GNode(u, id))
              else WentFirst(old(nodes), WNode(vdisktime, id))
    {
      hide Refines, Key, Seen, Represents, G.Put, G.OnTree, Rank;
      var n := WNode(vdisktime, id);
      ghost var u := Seen(v, spec.base);
      SeenIs(v, spec.base);
      KeyOfSeen(nodes, left, minVdisktime, spec, v);
      var k := Position(Key(vdisktime, minVdisktime));
      if u >= spec.base {
        LinkRefines(nodes, left, minVdisktime, spec, k, id, u);
      } else {
        BeforeAll(nodes, left, minVdisktime, spec, u, k);
      }
      if k == 0 {
        left := Some(n);
      }
      nodes := nodes[..k] + [n] + nodes[k..];
      spec := if u >= spec.base then G.Put(spec, G.GNode(u, id)) else spec;
    }

    /** The walk down the tree: behind all nodes whose key is not greater. */
    method Position(key: int) returns (k: nat)
      requires Valid()
      ensures k <= |nodes| == |spec.nodes| && k == Rank(G.VOf, spec.nodes, spec.base + key)
    {
      hide Key, G.TreeInv;
      k := 0;
      while k < |nodes| && Key(nodes[k].vdisktime, minVdisktime) <= key
        invariant 0 <= k <= |nodes|
        invariant forall i :: 0 <= i < k ==> spec.nodes[i].v <= spec.base + key
        modifies {}
      {
        NodeKey(nodes, left, minVdisktime, spec, k);
        k := k + 1;
      }
      if k < |nodes| {
        NodeKey(nodes, left, minVdisktime, spec, k);
      }
      RankUnique(G.VOf, spec.nodes, spec.base + key, k);
    }

    /** Node n stands before all others and is the leftmost one cached. */
    ghost predicate WentFirst(others: seq<WNode>, n: WNode)
      reads this
    {
      nodes == [n] + others && left == Some(n)
    }

    /** cfq_rb_erase on the group tree. */
    method Erase(i: nat)
      requires Valid() && i < |nodes| && G.OnTree(spec, nodes[i].id)
      modifies this
      ensures Valid() && spec == old(G.Take(spec, nodes[i].id))
      ensures nodes == old(nodes)[..i] + old(nodes)[i + 1..]
    {
      EraseRefines(nodes, left, minVdisktime, spec, i);
      if left == Some(nodes[i]) {
        LeftIsFirst(nodes, left, minVdisktime, spec, i);
        left := None;
      }
      spec := G.Take(spec, nodes[i].id);
      nodes := nodes[..i] + nodes[i + 1..];
    }

    /** cfq_get_next_cfqg: first group, and the floor catches up with it. */
    method GetNext() returns (r: Option<nat>)
      requires Valid()
      modifies this
      ensures Valid() && spec == G.GetNext(old(spec))
      ensures r == if spec.nodes == [] then None else Some(spec.nodes[0].id)
    {
      if nodes == [] {
        return None;
      }
      if left.None? {
        left := Some(nodes[0]);
      }
      ghost var f := spec.nodes[0];
      assert f in spec.nodes;
      KeyIsDistance(f.v, spec.base);
      G.GetNextKeepsInv(spec);
      minVdisktime := MaxVdisktime(minVdisktime, left.value.vdisktime);
      spec := G.GetNext(spec);
      r := Some(left.value.id);
    }

    /**
     * cfq_group_notify_queue_add for a group that was not backlogged: it goes behind the last
     * one if and only if its time is within 2^63 of the floor, and before all others if not.
     */
    method Join(id: nat)
      requires Valid() && !G.OnTree(spec, id)
      modifies this
      ensures if InWindow(G.JoinTime(old(spec)), old(spec).base) then Valid() && spec == G.Join(old(spec), id)
              else WentFirst(old(nodes), WNode(Wrap(G.JoinTime(old(spec))), id))
    {
      var v := minVdisktime;
      if nodes != [] {
        v := Wrap(nodes[|nodes| - 1].vdisktime + CFQ_IDLE_DELAY);
        WrapAdd(spec.nodes[|nodes| - 1].v, CFQ_IDLE_DELAY);
        assert spec.nodes[|nodes| - 1] in spec.nodes;
      }
      SeenIs(G.JoinTime(spec), spec.base);
      Link(id, v, G.JoinTime(spec));
    }

    /**
     * cfq_group_served's move: off the tree, advance the 64-bit time, back on.  The group comes
     * back at its advanced time if that is within 2^63 of the floor; otherwise at the time its
     * key stands for, before all others if that is before the floor.
     */
    method Served(i: nat, scaled: nat)
      requires Valid() && i < |nodes| && G.OnTree(spec, nodes[i].id)
      modifies this
      ensures var v := G.NodeOf(old(spec).nodes, old(nodes)[i].id).v + scaled;
              var u := Seen(v, old(spec).base);
              && (InWindow(v, old(spec).base) ==>
                    Valid() && spec == G.Charged(old(spec), old(nodes)[i].id, scaled))
              && (if u >= old(spec).base
                  then Valid() && spec == G.Put(G.Take(old(spec), old(nodes)[i].id), G.GNode(u, old(nodes)[i].id))
                  else WentFirst(old(nodes)[..i] + old(nodes)[i + 1..], WNode(Wrap(v), old(nodes)[i].id)))
    {
      hide Refines, Key, Seen, Represents, G.Put, G.NodeOf, G.Take, G.Charged;
      var n := nodes[i];
      ghost var v := G.NodeOf(spec.nodes, n.id).v;
      TakenThenPut(nodes, left, minVdisktime, spec, i);
      ChargedIs(spec, n.id, scaled, v);
      Erase(i);
      WrapAdd(v, scaled);
      SeenIs(v + scaled, spec.base);
      Link(n.id, Wrap(n.vdisktime + scaled), v + scaled);
    }

    /** One round on a fixed set of groups needs no precondition on the window of its own. */
    method ServeOne(c: nat, ghost d: int)
      requires Valid() && nodes != [] && G.SpreadAtMost(spec, d) && c <= d < HALF
      modifies this
      ensures Valid() && nodes != [] && spec == G.Step(old(spec), G.Round(c)) && G.SpreadAtMost(spec, d)
    {
      ghost var g := spec;
      RoundStaysInWindow(g, c, d);
      hide G.Step, G.Charged, G.GetNext, G.TreeInv, G.SpreadAtMost, G.NodeOf;
      var r := GetNext();
      assert nodes[0].id == spec.nodes[0].id;
      Served(0, c);
    }

    /**
     * Any number of rounds that serve the first group of a fixed set and charge it: while the
     * spread and the charges are below 2^63 the wrapped keys stay in the window by themselves.
     */
    method ServeRounds(charges: seq<nat>, ghost d: int)
      requires Valid() && nodes != [] && G.SpreadAtMost(spec, d) && d < HALF
      requires forall i :: 0 <= i < |charges| ==> charges[i] <= d
      modifies this
      ensures Valid() && spec == G.Run(old(spec), G.RoundsOf(charges)) && G.SpreadAtMost(spec, d)
      decreases |charges|
    {
      hide Refines, G.SpreadAtMost;
      if charges != [] {
        G.FirstRound(spec, charges);
        ServeOne(charges[0], d);
        ServeRounds(charges[1..], d);
      }
    }
  }

  lemma RoundStaysInWindow(g: G.Tree, c: nat, d: int)
    requires G.TreeInv(g) && g.nodes != [] && G.SpreadAtMost(g, d) && c <= d < HALF
    ensures var h := G.GetNext(g);
            && h.nodes == g.nodes && G.OnTree(h, g.nodes[0].id)
            && G.Step(g, G.Round(c)) == G.Charged(h, g.nodes[0].id, c)
            && InWindow(G.NodeOf(h.nodes, g.nodes[0].id).v + c, h.base)
    ensures G.SpreadAtMost(G.Step(g, G.Round(c)), d) && G.Step(g, G.Round(c)).nodes != []
  {
    var h := G.GetNext(g);
    assert h.nodes[0] in h.nodes && g.base <= h.nodes[0].v;
    G.NodeOfUnique(h.nodes, 0);
    G.RoundSpread(g, c, d);
    G.RoundMembers(g, c);
  }

  lemma ChargedIs(g: G.Tree, id: nat, scaled: nat, v: int)
    requires G.OnTree(g, id) && v == G.NodeOf(g.nodes, id).v
    ensures G.Charged(g, id, scaled) == G.Put(G.Take(g, id), G.GNode(v + scaled, id))
  {
  }

  lemma TakenThenPut(nodes: seq<WNode>, left: Option<WNode>, minVdisktime: int, spec: G.Tree, i: nat)
    requires Refines(nodes, left, minVdisktime, spec) && i < |nodes| && G.OnTree(spec, nodes[i].id)
    ensures nodes[i].vdisktime == Wrap(G.NodeOf(spec.nodes, nodes[i].id).v)
    ensures !G.OnTree(G.Take(spec, nodes[i].id), nodes[i].id) && G.Take(spec, nodes[i].id).base == spec.base
  {
    G.NodeOfUnique(spec.nodes, i);
    G.TakeKeepsInv(spec, nodes[i].id);
  }

  lemma NodeKey(nodes: seq<WNode>, left: Option<WNode>, minVdisktime: int, spec: G.Tree, k: nat)
    requires Refines(nodes, left, minVdisktime, spec) && k < |nodes|
    ensures Key(nodes[k].vdisktime, minVdisktime) == spec.nodes[k].v - spec.base
  {
    assert spec.nodes[k] in spec.nodes;
    KeyIsDistance(spec.nodes[k].v, spec.base);
  }

  /** A time before the floor is before every group on the tree. */
  lemma BeforeAll(nodes: seq<WNode>, left: Option<WNode>, minVdisktime: int, spec: G.Tree, u: int, k: nat)
    requires Refines(nodes, left, minVdisktime, spec) && u < spec.base && k == Rank(G.VOf, spec.nodes, u)
    ensures k == 0
  {
    assert |spec.nodes| > 0 ==> spec.nodes[0] in spec.nodes && G.VOf(spec.nodes[0]) > u;
  }

  lemma KeyOfSeen(nodes: seq<WNode>, left: Option<WNode>, minVdisktime: int, spec: G.Tree, v: int)
    requires Refines(nodes, left, minVdisktime, spec)
    ensures Key(Wrap(v), minVdisktime) == Seen(v, spec.base) - spec.base
  {
  }

  lemma WrapAdd(v: int, d: int)
    ensures Wrap(Wrap(v) + d) == Wrap(v + d)
  {
    WrapIs(v);
    WrapIs(v + d);
    WrapUnique(Wrap(v + d), Wrap(v) + d, Wraps(v) - Wraps(v + d));
  }
}
