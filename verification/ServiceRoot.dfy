/** A tree of queues sorted by service key, with its cached leftmost node. */
module ServiceRoot {
  import opened Seqs
  import opened Ordered
  import opened Kernel

  const CFQ_SLICE_SCALE: int := 5

  datatype Node = Node(key: int, id: nat)

  const KeyOf: Node -> int := (n: Node) => n.key

  datatype Root = Root(nodes: seq<Node>, left: Option<Node>, count: int)

  const EMPTY_ROOT := Root([], None, 0)

  predicate DistinctNodes(s: seq<Node>) {
    forall i, j :: 0 <= i < j < |s| ==> s[i].id != s[j].id
  }

  predicate HasNode(r: Root, id: nat) {
    exists i :: 0 <= i < |r.nodes| && r.nodes[i].id == id
  }

  /** The cache is empty or holds the true minimum; count is the number of nodes. */
  ghost predicate RootInv(r: Root) {
    && Sorted(KeyOf, r.nodes)
    && DistinctNodes(r.nodes)
    && (r.left.Some? ==> r.nodes != [] && r.left.value == r.nodes[0])
    && r.count == |r.nodes|
  }

  /** Link a node; the cache moves only if the walk never turned right. */
  function AddNode(r: Root, n: Node): Root {
    Root(Insert(KeyOf, r.nodes, n), if Rank(KeyOf, r.nodes, n.key) == 0 then Some(n) else r.left, r.count + 1)
  }

  /** cfq_rb_erase. */
  function EraseNode(r: Root, n: Node): Root {
    Root(Remove(r.nodes, n), if r.left == Some(n) then None else r.left, r.count - 1)
  }

  /** cfq_rb_first: refill the cache if it is empty. */
  function RefillLeft(r: Root): Root {
    if r.count == 0 || r.left.Some? || r.nodes == [] then r else r.(left := Some(r.nodes[0]))
  }

  function First(r: Root): Option<Node> {
    if r.count == 0 then None else RefillLeft(r).left
  }

  lemma AddKeepsInv(r: Root, n: Node)
    requires RootInv(r) && !HasNode(r, n.id)
    ensures RootInv(AddNode(r, n))
    ensures forall m :: m in AddNode(r, n).nodes <==> m == n || m in r.nodes
  {
    InsertSorted(KeyOf, r.nodes, n);
    InsertMembers(KeyOf, r.nodes, n);
    InsertFirst(KeyOf, r.nodes, n);
    var k := Rank(KeyOf, r.nodes, n.key);
    assert AddNode(r, n).nodes == r.nodes[..k] + [n] + r.nodes[k..];
  }

  lemma {:induction false} EraseDistinct(s: seq<Node>, n: Node)
    requires DistinctNodes(s)
    ensures DistinctNodes(Remove(s, n))
    ensures forall m :: m in Remove(s, n) <==> m in s && m != n
  {
    RemoveMembers(s, n);
    var u := Remove(s, n);
    forall i, j | 0 <= i < j < |u|
      ensures u[i].id != u[j].id
    {
      assert u[i] in u && u[j] in u;
      assert u[i] in s && u[j] in s && u[i] != u[j];
    }
  }

  lemma EraseKeepsInv(r: Root, n: Node)
    requires RootInv(r) && n in r.nodes
    ensures RootInv(EraseNode(r, n))
    ensures forall m :: m in EraseNode(r, n).nodes <==> m in r.nodes && m != n
  {
    RemoveSorted(KeyOf, r.nodes, n);
    EraseDistinct(r.nodes, n);
    RemoveMultiset(r.nodes, n);
    if r.left.Some? && r.left != Some(n) {
      assert Remove(r.nodes, n)[0] == r.nodes[0];
    }
  }

  /** The cached first node is what a full search for the minimum finds. */
  lemma FirstIsMinimum(r: Root)
    requires RootInv(r)
    ensures First(r).None? <==> r.nodes == []
    ensures First(r).Some? ==> First(r).value == r.nodes[0]
    ensures First(r).Some? ==> forall m :: m in r.nodes ==> First(r).value.key <= m.key
    ensures RootInv(RefillLeft(r)) && RefillLeft(r).nodes == r.nodes && RefillLeft(r).count == r.count
  {
    if r.nodes != [] {
      forall m | m in r.nodes
        ensures r.nodes[0].key <= m.key
      {
        var i :| 0 <= i < |r.nodes| && r.nodes[i] == m;
        assert i > 0 ==> KeyOf(r.nodes[0]) <= KeyOf(r.nodes[i]);
      }
    }
  }

  datatype TreeOp = Add(n: Node) | Erase(n: Node) | Look

  function Apply(r: Root, op: TreeOp): Root {
    match op
    case Add(n) => if HasNode(r, n.id) then r else AddNode(r, n)
    case Erase(n) => if n in r.nodes then EraseNode(r, n) else r
    case Look => RefillLeft(r)
  }

  function ApplyAll(r: Root, ops: seq<TreeOp>): Root
    decreases |ops|
  {
    if ops == [] then r else ApplyAll(Apply(r, ops[0]), ops[1..])
  }

  /** Over any sequence of insertions, erasures and lookups the cache stays correct. */
  lemma {:induction false} CacheCorrectOverRuns(r: Root, ops: seq<TreeOp>)
    requires RootInv(r)
    ensures RootInv(ApplyAll(r, ops))
    decreases |ops|
  {
    if ops != [] {
      match ops[0] {
        case Add(n) => if !HasNode(r, n.id) { AddKeepsInv(r, n); }
        case Erase(n) => if n in r.nodes { EraseKeepsInv(r, n); }
        case Look => FirstIsMinimum(r);
      }
      CacheCorrectOverRuns(Apply(r, ops[0]), ops[1..]);
    }
  }

  /** cfq_prio_slice: base +/- fifths of the base per priority step away from 4. */
  function PrioSlice(base: nat, prio: nat): int {
    base + base / CFQ_SLICE_SCALE * (4 - prio)
  }

  /** cfq_slice_offset for a group with nr queues. */
  function SliceOffset(nr: int, syncSlice: nat, ownSlice: nat, prio: nat): int {
    (nr - 1) * (PrioSlice(syncSlice, 0) - PrioSlice(ownSlice, prio))
  }

  /** The three ways cfq_service_tree_add computes a queue's key in tree r. */
  function IdleKey(r: Root, id: nat, now: nat): int {
    var base := if r.nodes != [] && r.nodes[|r.nodes| - 1].id != id then r.nodes[|r.nodes| - 1].key else now;
    Wrap(CFQ_IDLE_DELAY + base)
  }

  function TailKey(offset: int, resid: int, now: nat): int {
    Wrap(offset + now - resid)
  }

  function FrontKey(r: Root, now: nat): int {
    Wrap((if First(r).Some? then First(r).value.key else now) - NSEC_PER_SEC)
  }

  ghost predicate Keys64(r: Root) {
    forall n :: n in r.nodes ==> 0 <= n.key < U64
  }

  /**
   * A queue put at the front becomes the first node exactly when subtracting one second
   * from the current first key does not underflow.
   */
  lemma FrontBecomesFirst(r: Root, id: nat, now: nat)
    requires RootInv(r) && Keys64(r) && !HasNode(r, id) && now < U64
    ensures var n := Node(FrontKey(r, now), id);
            AddNode(r, n).nodes[0] == n <==> r.nodes == [] || r.nodes[0].key >= NSEC_PER_SEC
  {
    var n := Node(FrontKey(r, now), id);
    FirstIsMinimum(r);
    InsertFirst(KeyOf, r.nodes, n);
    if r.nodes != [] {
      assert r.nodes[0] in r.nodes;
      var x := r.nodes[0].key - NSEC_PER_SEC;
      if x < 0 {
        assert Wrap(x) == x + U64;
      }
    }
  }

  /** One second can be taken off the first key, or there is none. */
  predicate FrontFits(r: Root) {
    r.nodes == [] || r.nodes[0].key >= NSEC_PER_SEC
  }

  /** Wrapping below zero makes a key greater than any within one second of 2^64 of it. */
  lemma FrontUnderflow(k: int, o: int)
    requires 0 <= k <= o < U64
    ensures Wrap(k - NSEC_PER_SEC) < o <==> k >= NSEC_PER_SEC || o - k > U64 - NSEC_PER_SEC
  {
    assert k < NSEC_PER_SEC ==> Wrap(k - NSEC_PER_SEC) == k - NSEC_PER_SEC + U64;
  }

  /**
   * When the queue moves to the front of the tree it is already in, `rest` being nodes of
   * others: it becomes first exactly when the subtraction does not underflow, nobody else is
   * left, or the first one left is nearly the whole range of keys behind the old first one.
   * If another queue was first, only the underflow matters.
   */
  lemma FrontOfRest(r: Root, rest: seq<Node>, id: nat, now: nat)
    requires RootInv(r) && Keys64(r) && r.nodes != [] && Sorted(KeyOf, rest)
    requires forall n :: n in rest ==> n in r.nodes && n.id != id
    ensures Insert(KeyOf, rest, Node(FrontKey(r, now), id))[0].id == id <==>
            FrontFits(r) || rest == [] || rest[0].key - r.nodes[0].key > U64 - NSEC_PER_SEC
    ensures rest != [] && rest[0] == r.nodes[0] ==>
              (Insert(KeyOf, rest, Node(FrontKey(r, now), id))[0].id == id <==> FrontFits(r))
  {
    FirstIsMinimum(r);
    assert r.nodes[0] in r.nodes;
    InsertFirst(KeyOf, rest, Node(FrontKey(r, now), id));
    if rest != [] {
      assert rest[0] in rest;
      FrontUnderflow(r.nodes[0].key, rest[0].key);
    }
  }

  /** An idle-class queue joins behind every other node, unless its key overflows. */
  lemma IdleGoesLast(r: Root, id: nat, now: nat)
    requires RootInv(r) && Keys64(r) && !HasNode(r, id) && r.nodes != []
    ensures var n := Node(IdleKey(r, id, now), id);
            AddNode(r, n).nodes == r.nodes + [n] <==> r.nodes[|r.nodes| - 1].key < U64 - CFQ_IDLE_DELAY
  {
    var n, l := Node(IdleKey(r, id, now), id), r.nodes[|r.nodes| - 1];
    assert l in r.nodes;
    assert l.id != id;
    var x := CFQ_IDLE_DELAY + l.key;
    assert x >= U64 ==> Wrap(x) == x - U64;
    AppendedIfLargest(r.nodes, n);
  }

  /** Insertion appends exactly when no key is greater. */
  lemma AppendedIfLargest(s: seq<Node>, n: Node)
    requires Sorted(KeyOf, s) && s != [] && n !in s
    ensures Insert(KeyOf, s, n) == s + [n] <==> s[|s| - 1].key <= n.key
  {
    var k := Rank(KeyOf, s, n.key);
    if s[|s| - 1].key <= n.key {
      assert forall i :: 0 <= i < |s| - 1 ==> KeyOf(s[i]) <= KeyOf(s[|s| - 1]);
      assert k == |s|;
    } else {
      assert k < |s|;
      assert Insert(KeyOf, s, n)[k] == n && (s + [n])[k] == s[k];
    }
  }
}
