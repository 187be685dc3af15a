/** The values cfq_data holds, the invariant over them, and how each elementary change keeps it. */
module CfqState {
  import opened Seqs
  import opened Kernel
  import opened Ordered
  import opened Requests
  import opened RequestIndex
  import opened ServiceRoot
  import G = GroupTree
  import T = Turns

  datatype WlClass = BE | RT | IDLE

  datatype WlType = ASYNC | SYNC_NOIDLE | SYNC

  datatype TreeId = TreeId(g: nat, c: WlClass, t: WlType)

  /** st_for: the idle class has one tree, whatever the type. */
  function StFor(g: nat, c: WlClass, t: WlType): TreeId {
    TreeId(g, c, if c == IDLE then ASYNC else t)
  }

  /**
   * The scheduling fields of a cfq_queue: its group and kind, whether it is busy, the
   * service tree it is linked in, its key and carried slice, and prio-tree membership.
   */
  datatype Queue = Queue(cfqg: nat, sync: bool, ioClass: WlClass, ioprio: nat, idleWindow: bool,
                         onRr: bool, tree: Option<TreeId>, rbKey: int, resid: int, prioTree: bool)

  /** nr_cfqq and the saved workload of a cfq_group. */
  datatype Group = Group(nrCfqq: int, savedSlice: nat, savedType: WlType, savedClass: WlClass)

  /** Reference count, and how many of the references belong to requests. */
  datatype Refs = Refs(count: int, requests: int)

  function TypeOf(q: Queue): WlType {
    if !q.sync then ASYNC else if !q.idleWindow then SYNC_NOIDLE else SYNC
  }

  function StOf(q: Queue): TreeId {
    StFor(q.cfqg, q.ioClass, TypeOf(q))
  }

  type Queues = map<nat, Queue>
  type Trees = map<TreeId, Root>
  type Groups = map<nat, Group>

  ghost predicate LinkedAt(qs: Queues, ts: Trees, q: nat, t: TreeId)
    requires q in qs
  {
    t.g == qs[q].cfqg && t in ts && Node(qs[q].rbKey, q) in ts[t].nodes
  }

  ghost predicate NodesMatch(qs: Queues, ts: Trees, t: TreeId)
    requires t in ts
  {
    forall n :: n in ts[t].nodes ==> n.id in qs && qs[n.id].tree == Some(t) && qs[n.id].rbKey == n.key
  }

  /** Seven trees a group, each well formed. */
  ghost predicate ForestInv(ts: Trees, gs: Groups) {
    && (forall t :: t in ts ==> RootInv(ts[t]) && Keys64(ts[t]) && t.g in gs && t == StFor(t.g, t.c, t.t))
    && (forall g, c, t :: g in gs ==> StFor(g, c, t) in ts)
  }

  ghost predicate LinksInv(qs: Queues, ts: Trees) {
    forall q :: q in qs && qs[q].tree.Some? ==> LinkedAt(qs, ts, q, qs[q].tree.value)
  }

  ghost predicate MatchInv(qs: Queues, ts: Trees) {
    forall t :: t in ts ==> NodesMatch(qs, ts, t)
  }

  /** Linked queues and tree nodes correspond one to one, within the queue's own group. */
  ghost predicate TreesInv(qs: Queues, ts: Trees, gs: Groups) {
    && ForestInv(ts, gs)
    && (forall q :: q in qs ==> qs[q].cfqg in gs)
    && LinksInv(qs, ts)
    && MatchInv(qs, ts)
  }

  function OnRr(qs: Queues): set<nat> {
    set q | q in qs && qs[q].onRr
  }

  function OnRrSync(qs: Queues): set<nat> {
    set q | q in qs && qs[q].onRr && qs[q].sync
  }

  function OnRrIn(qs: Queues, g: nat): set<nat> {
    set q | q in qs && qs[q].onRr && qs[q].cfqg == g
  }

  /** A queue is busy exactly when it is linked in a service tree. */
  ghost predicate OnRrInv(qs: Queues) {
    forall q :: q in qs ==> (qs[q].onRr <==> qs[q].tree.Some?)
  }

  /** Every counter counts, and a group is on the group tree iff it has a busy queue. */
  ghost predicate CountInv(qs: Queues, gs: Groups, gt: G.Tree, busy: int, busySync: int) {
    && busy == |OnRr(qs)|
    && busySync == |OnRrSync(qs)|
    && (forall g :: g in gs ==> gs[g].nrCfqq == |OnRrIn(qs, g)|)
    && G.TreeInv(gt)
    && (forall g :: G.OnTree(gt, g) <==> g in gs && gs[g].nrCfqq > 0)
  }

  /** Trees, busy flags and counters agree. */
  ghost predicate RrInv(qs: Queues, ts: Trees, gs: Groups, gt: G.Tree, busy: int, busySync: int) {
    TreesInv(qs, ts, gs) && OnRrInv(qs) && CountInv(qs, gs, gt, busy, busySync)
  }

  /** Requests keep a queue busy; only the active queue is busy without any. */
  ghost predicate ActiveInv(qs: Queues, ix: map<nat, Index>, active: Option<nat>) {
    && ix.Keys == qs.Keys
    && (forall q :: q in qs ==> RequestIndex.Inv(ix[q]))
    && (forall q :: q in qs && ix[q].sort != [] ==> qs[q].onRr)
    && (forall q :: q in qs && qs[q].onRr && ix[q].sort == [] ==> active == Some(q))
    && (forall q :: q in qs && qs[q].prioTree ==> ix[q].sort != [])
    && (active.Some? ==> active.value in qs && qs[active.value].onRr)
  }

  /** Live queues are referenced, and each pending request holds a reference. */
  ghost predicate RefInv(ix: map<nat, Index>, rs: map<nat, Refs>) {
    && rs.Keys == ix.Keys
    && forall q :: q in rs ==> |ix[q].sort| <= rs[q].requests <= rs[q].count && rs[q].count > 0
  }

  /** All pending requests of all queues. */
  ghost function Pending(ix: map<nat, Index>): multiset<Request> {
    if ix == map[] then multiset{}
    else
      var q :| q in ix;
      multiset(ix[q].sort) + Pending(ix - {q})
  }

  lemma {:induction false} PendingPick(ix: map<nat, Index>, q: nat)
    requires q in ix
    ensures Pending(ix) == multiset(ix[q].sort) + Pending(ix - {q})
    decreases |ix|
  {
    var p :| p in ix && Pending(ix) == multiset(ix[p].sort) + Pending(ix - {p});
    if p != q {
      PendingPick(ix - {p}, q);
      PendingPick(ix - {q}, p);
      assert ix - {p} - {q} == ix - {q} - {p};
    }
  }

  lemma PendingUpdate(ix: map<nat, Index>, q: nat, x: Index)
    requires q in ix
    ensures Pending(ix[q := x]) + multiset(ix[q].sort) == Pending(ix) + multiset(x.sort)
    ensures multiset(ix[q].sort) <= Pending(ix)
  {
    PendingPick(ix, q);
    PendingPick(ix[q := x], q);
    assert ix[q := x] - {q} == ix - {q};
  }

  lemma PendingNewQueue(ix: map<nat, Index>, q: nat)
    requires q !in ix
    ensures Pending(ix[q := EMPTY]) == Pending(ix)
  {
    PendingPick(ix[q := EMPTY], q);
    assert ix[q := EMPTY] - {q} == ix;
  }

  lemma PendingMember(ix: map<nat, Index>, q: nat)
    requires q in ix
    ensures |ix[q].sort| <= |Pending(ix)|
  {
    PendingPick(ix, q);
  }

  lemma {:induction false} PendingSomewhere(ix: map<nat, Index>)
    requires |Pending(ix)| > 0
    ensures exists q :: q in ix && ix[q].sort != []
    decreases |ix|
  {
    var p :| p in ix && Pending(ix) == multiset(ix[p].sort) + Pending(ix - {p});
    if ix[p].sort == [] {
      PendingSomewhere(ix - {p});
      var q :| q in ix - {p} && (ix - {p})[q].sort != [];
      assert ix[q].sort != [];
    }
  }

  // ---------- linking and unlinking ----------

  lemma NotLinkedElsewhere(qs: Queues, ts: Trees, gs: Groups, q: nat, t: TreeId)
    requires TreesInv(qs, ts, gs) && t in ts && HasNode(ts[t], q)
    ensures q in qs && qs[q].tree == Some(t)
  {
    var i :| 0 <= i < |ts[t].nodes| && ts[t].nodes[i].id == q;
    assert NodesMatch(qs, ts, t) && ts[t].nodes[i] in ts[t].nodes;
  }

  lemma LinkKeepsTrees(qs: Queues, ts: Trees, gs: Groups, q: nat, t: TreeId, key: int)
    requires TreesInv(qs, ts, gs) && q in qs && qs[q].tree.None?
    requires t in ts && t.g == qs[q].cfqg && 0 <= key < U64
    ensures TreesInv(qs[q := qs[q].(tree := Some(t), rbKey := key)], ts[t := AddNode(ts[t], Node(key, q))], gs)
  {
    if HasNode(ts[t], q) {
      NotLinkedElsewhere(qs, ts, gs, q, t);
      assert false;
    }
    AddKeepsInv(ts[t], Node(key, q));
    hide RootInv, Keys64, HasNode, AddNode, MatchInv, LinksInv;
    LinkMatches(qs, ts, q, t, key);
    LinkLinks(qs, ts, q, t, key);
  }

  lemma LinkMatches(qs: Queues, ts: Trees, q: nat, t: TreeId, key: int)
    requires MatchInv(qs, ts) && q in qs && qs[q].tree.None? && t in ts
    requires forall n :: n in AddNode(ts[t], Node(key, q)).nodes <==> n in ts[t].nodes || n == Node(key, q)
    ensures MatchInv(qs[q := qs[q].(tree := Some(t), rbKey := key)], ts[t := AddNode(ts[t], Node(key, q))])
  {
    hide AddNode;
    var qs', ts' := qs[q := qs[q].(tree := Some(t), rbKey := key)], ts[t := AddNode(ts[t], Node(key, q))];
    forall u | u in ts'
      ensures NodesMatch(qs', ts', u)
    {
      assert NodesMatch(qs, ts, u);
      assert forall n :: n in ts[u].nodes ==> n.id != q;
    }
  }

  lemma LinkLinks(qs: Queues, ts: Trees, q: nat, t: TreeId, key: int)
    requires LinksInv(qs, ts) && q in qs && qs[q].tree.None? && t in ts && t.g == qs[q].cfqg
    requires forall n :: n in AddNode(ts[t], Node(key, q)).nodes <==> n in ts[t].nodes || n == Node(key, q)
    ensures LinksInv(qs[q := qs[q].(tree := Some(t), rbKey := key)], ts[t := AddNode(ts[t], Node(key, q))])
  {
    hide AddNode;
    var qs', ts' := qs[q := qs[q].(tree := Some(t), rbKey := key)], ts[t := AddNode(ts[t], Node(key, q))];
    forall p | p in qs' && qs'[p].tree.Some?
      ensures LinkedAt(qs', ts', p, qs'[p].tree.value)
    {
      assert p != q ==> LinkedAt(qs, ts, p, qs[p].tree.value);
    }
  }

  lemma UnlinkKeepsTrees(qs: Queues, ts: Trees, gs: Groups, q: nat)
    requires TreesInv(qs, ts, gs) && q in qs && qs[q].tree.Some?
    ensures var t := qs[q].tree.value;
            && t in ts
            && Node(qs[q].rbKey, q) in ts[t].nodes
            && TreesInv(qs[q := qs[q].(tree := None)], ts[t := EraseNode(ts[t], Node(qs[q].rbKey, q))], gs)
  {
    var t := qs[q].tree.value;
    var n := Node(qs[q].rbKey, q);
    assert LinkedAt(qs, ts, q, t);
    EraseKeepsInv(ts[t], n);
    hide RootInv, Keys64, EraseNode, MatchInv, LinksInv;
    UnlinkMatches(qs, ts, q);
    UnlinkLinks(qs, ts, q);
  }

  lemma UnlinkMatches(qs: Queues, ts: Trees, q: nat)
    requires MatchInv(qs, ts) && q in qs && qs[q].tree.Some? && qs[q].tree.value in ts
    requires var t, n := qs[q].tree.value, Node(qs[q].rbKey, q);
             forall m :: m in EraseNode(ts[t], n).nodes <==> m in ts[t].nodes && m != n
    ensures var t, n := qs[q].tree.value, Node(qs[q].rbKey, q);
            MatchInv(qs[q := qs[q].(tree := None)], ts[t := EraseNode(ts[t], n)])
  {
    hide EraseNode;
    var t := qs[q].tree.value;
    var qs', ts' := qs[q := qs[q].(tree := None)], ts[t := EraseNode(ts[t], Node(qs[q].rbKey, q))];
    forall u | u in ts'
      ensures NodesMatch(qs', ts', u)
    {
      assert NodesMatch(qs, ts, u) && NodesMatch(qs, ts, t);
      assert forall m :: m in ts'[u].nodes ==> m in ts[u].nodes && m.id != q;
    }
  }

  lemma UnlinkLinks(qs: Queues, ts: Trees, q: nat)
    requires LinksInv(qs, ts) && q in qs && qs[q].tree.Some? && qs[q].tree.value in ts
    requires var t, n := qs[q].tree.value, Node(qs[q].rbKey, q);
             forall m :: m in EraseNode(ts[t], n).nodes <==> m in ts[t].nodes && m != n
    ensures var t, n := qs[q].tree.value, Node(qs[q].rbKey, q);
            LinksInv(qs[q := qs[q].(tree := None)], ts[t := EraseNode(ts[t], n)])
  {
    hide EraseNode;
    var t := qs[q].tree.value;
    var qs', ts' := qs[q := qs[q].(tree := None)], ts[t := EraseNode(ts[t], Node(qs[q].rbKey, q))];
    forall p | p in qs' && qs'[p].tree.Some?
      ensures LinkedAt(qs', ts', p, qs'[p].tree.value)
    {
      assert LinkedAt(qs, ts, p, qs[p].tree.value);
    }
  }

  /** The same nodes in every tree, up to the leftmost caches. */
  ghost predicate SameNodes(ts: Trees, ts': Trees) {
    ts.Keys == ts'.Keys && forall t :: t in ts ==> ts'[t].nodes == ts[t].nodes && ts'[t].count == ts[t].count
  }

  lemma RefillKeepsTrees(qs: Queues, ts: Trees, gs: Groups, t: TreeId)
    requires TreesInv(qs, ts, gs) && t in ts
    ensures TreesInv(qs, ts[t := RefillLeft(ts[t])], gs) && SameNodes(ts, ts[t := RefillLeft(ts[t])])
  {
    FirstIsMinimum(ts[t]);
    var ts' := ts[t := RefillLeft(ts[t])];
    forall u | u in ts'
      ensures NodesMatch(qs, ts', u)
    {
      assert NodesMatch(qs, ts, u);
    }
    forall p | p in qs && qs[p].tree.Some?
      ensures LinkedAt(qs, ts', p, qs[p].tree.value)
    {
      assert LinkedAt(qs, ts, p, qs[p].tree.value);
    }
  }

  /** Fields the trees do not depend on may change freely. */
  lemma OtherFieldsKeepTrees(qs: Queues, ts: Trees, gs: Groups, q: nat, x: Queue)
    requires TreesInv(qs, ts, gs) && q in qs
    requires x.cfqg == qs[q].cfqg && x.tree == qs[q].tree && x.rbKey == qs[q].rbKey
    ensures TreesInv(qs[q := x], ts, gs)
  {
    var qs' := qs[q := x];
    forall u | u in ts
      ensures NodesMatch(qs', ts, u)
    {
      assert NodesMatch(qs, ts, u);
    }
    forall p | p in qs' && qs'[p].tree.Some?
      ensures LinkedAt(qs', ts, p, qs'[p].tree.value)
    {
      assert LinkedAt(qs, ts, p, qs[p].tree.value);
    }
  }

  lemma GroupFieldsKeepTrees(qs: Queues, ts: Trees, gs: Groups, gs': Groups)
    requires TreesInv(qs, ts, gs) && gs'.Keys == gs.Keys
    ensures TreesInv(qs, ts, gs')
  {
    assert forall g :: g in gs' <==> g in gs;
    forall u | u in ts
      ensures NodesMatch(qs, ts, u)
    {
    }
  }

  /** The key of a queue in tree r of a group with nr busy queues, by class and position. */
  function ServiceKey(r: Root, nr: int, x: Queue, q: nat, addFront: bool, now: nat,
                      sliceSync: nat, sliceAsync: nat): int {
    if x.ioClass == IDLE then IdleKey(r, q, now)
    else if addFront then FrontKey(r, now)
    else TailKey(SliceOffset(nr, sliceSync, if x.sync then sliceSync else sliceAsync, x.ioprio), x.resid, now)
  }

  /** The nodes of tree st once queue q, formerly x, is (re)linked there under `key`. */
  function Requeued(r: Root, st: TreeId, x: Queue, q: nat, key: int): seq<Node> {
    if x.tree != Some(st) then Insert(KeyOf, r.nodes, Node(key, q))
    else if x.rbKey == key then r.nodes
    else Insert(KeyOf, Remove(r.nodes, Node(x.rbKey, q)), Node(key, q))
  }

  /** Queue q has taken the place that its class, type and position flag give it. */
  ghost predicate TookPlace(qs: Queues, ts: Trees, gs: Groups, qs': Queues, ts': Trees, q: nat, addFront: bool,
                            now: nat, sliceSync: nat, sliceAsync: nat) {
    && q in qs && qs[q].cfqg in gs && StOf(qs[q]) in ts && StOf(qs[q]) in ts'
    && var x, st := qs[q], StOf(qs[q]);
       var key := ServiceKey(ts[st], gs[x.cfqg].nrCfqq, x, q, addFront, now, sliceSync, sliceAsync);
       && qs' == qs[q := x.(tree := Some(st), rbKey := key,
                            resid := if x.ioClass != IDLE && !addFront then 0 else x.resid)]
       && ts'[st].nodes == Requeued(ts[st], st, x, q, key)
  }

  /** Only the nodes of the tree and the place of the queue in it matter. */
  lemma RequeuedSame(r: Root, r': Root, st: TreeId, x: Queue, x': Queue, q: nat, key: int)
    requires r.nodes == r'.nodes && x.tree == x'.tree && x.rbKey == x'.rbKey
    ensures Requeued(r, st, x, q, key) == Requeued(r', st, x', q, key)
  {
  }

  lemma EmptyInv(root: nat, gs: Groups, ts: Trees)
    requires gs == map[root := Group(0, 0, ASYNC, BE)] && ts == (map t | t in AllTrees(root) :: EMPTY_ROOT)
    ensures TreesInv(map[], ts, gs) && OnRrInv(map[]) && CountInv(map[], gs, G.EMPTY_TREE, 0, 0)
    ensures ActiveInv(map[], map[], None) && RefInv(map[], map[]) && |Pending(map[])| == 0
  {
    EmptyTrees(root, gs, ts);
    hide TreesInv;
    assert forall g :: !G.OnTree(G.EMPTY_TREE, g);
    assert forall g :: OnRrIn(map[], g) == {};
    assert OnRr(map[]) == {} && OnRrSync(map[]) == {};
  }

  lemma EmptyTrees(root: nat, gs: Groups, ts: Trees)
    requires gs == map[root := Group(0, 0, ASYNC, BE)] && ts == (map t | t in AllTrees(root) :: EMPTY_ROOT)
    ensures TreesInv(map[], ts, gs)
  {
    forall g, c, t | g in gs
      ensures StFor(g, c, t) in ts
    {
      AllTreesComplete(StFor(g, c, t));
    }
    forall t | t in ts
      ensures t.g == root && t == StFor(t.g, t.c, t.t)
    {
      var i :| 0 <= i < 7 && t == AllTrees(root)[i];
    }
  }

  // ---------- counting ----------

  /** Marking an idle queue busy moves each count that covers it by one, and back. */
  lemma MarkCounts(qs: Queues, q: nat, x: Queue, g: nat)
    requires q in qs && x.cfqg == qs[q].cfqg && x.sync == qs[q].sync
    ensures var d := (if x.onRr then 1 else 0) - (if qs[q].onRr then 1 else 0);
            && |OnRr(qs[q := x])| == |OnRr(qs)| + d
            && |OnRrSync(qs[q := x])| == |OnRrSync(qs)| + (if x.sync then d else 0)
            && |OnRrIn(qs[q := x], g)| == |OnRrIn(qs, g)| + (if x.cfqg == g then d else 0)
  {
    SetChange(OnRr(qs), OnRr(qs[q := x]), q);
    SetChange(OnRrSync(qs), OnRrSync(qs[q := x]), q);
    SetChange(OnRrIn(qs, g), OnRrIn(qs[q := x], g), q);
  }

  lemma SetChange(a: set<nat>, b: set<nat>, q: nat)
    requires forall p :: p != q ==> (p in a <==> p in b)
    ensures |b| == |a| + (if q in b then 1 else 0) - (if q in a then 1 else 0)
  {
    assert a - {q} == b - {q};
    assert |a - {q}| == |a| - if q in a then 1 else 0;
    assert |b - {q}| == |b| - if q in b then 1 else 0;
  }

  lemma AddCounts(qs: Queues, gs: Groups, gt: G.Tree, busy: int, busySync: int, q: nat, x: Queue)
    requires CountInv(qs, gs, gt, busy, busySync) && q in qs && qs[q].cfqg in gs
    requires !qs[q].onRr && x.onRr && x.cfqg == qs[q].cfqg && x.sync == qs[q].sync
    ensures var g := x.cfqg;
            CountInv(qs[q := x], gs[g := gs[g].(nrCfqq := gs[g].nrCfqq + 1)],
                     if G.OnTree(gt, g) then gt else G.Join(gt, g),
                     busy + 1, busySync + if x.sync then 1 else 0)
  {
    forall g | g in gs {
      MarkCounts(qs, q, x, g);
    }
    MarkCounts(qs, q, x, x.cfqg);
    if !G.OnTree(gt, x.cfqg) {
      G.JoinKeepsInv(gt, x.cfqg);
    }
  }

  lemma DelCounts(qs: Queues, gs: Groups, gt: G.Tree, busy: int, busySync: int, q: nat, x: Queue,
                  gs': Groups, gt': G.Tree)
    requires CountInv(qs, gs, gt, busy, busySync) && q in qs && qs[q].cfqg in gs
    requires qs[q].onRr && !x.onRr && x.cfqg == qs[q].cfqg && x.sync == qs[q].sync
    requires gs'.Keys == gs.Keys && (forall h :: h in gs && h != x.cfqg ==> gs'[h] == gs[h])
    requires gs'[x.cfqg].nrCfqq == gs[x.cfqg].nrCfqq - 1
    requires G.OnTree(gt, x.cfqg)
    requires gt' == if gs'[x.cfqg].nrCfqq > 0 then gt else G.Take(gt, x.cfqg)
    ensures CountInv(qs[q := x], gs', gt', busy - 1, busySync - if x.sync then 1 else 0)
  {
    forall g | g in gs {
      MarkCounts(qs, q, x, g);
    }
    MarkCounts(qs, q, x, x.cfqg);
    if gs'[x.cfqg].nrCfqq <= 0 {
      G.TakeKeepsInv(gt, x.cfqg);
    }
  }

  lemma CountsNonNegative(ts: Trees, gs: Groups, g: nat)
    requires ForestInv(ts, gs) && g in gs
    ensures forall c, t :: CountAt(ts, g, c, t) >= 0
  {
    forall c, t
      ensures CountAt(ts, g, c, t) >= 0
    {
      assert RootInv(ts[StFor(g, c, t)]);
    }
  }

  /** Charging a group moves it within the tree; its other fields do not count. */
  lemma ChargeKeepsCounts(qs: Queues, gs: Groups, gt: G.Tree, busy: int, busySync: int, g: nat, scaled: nat, x: Group)
    requires CountInv(qs, gs, gt, busy, busySync) && g in gs && G.OnTree(gt, g) && x.nrCfqq == gs[g].nrCfqq
    ensures CountInv(qs, gs[g := x], G.Charged(gt, g, scaled), busy, busySync)
  {
    G.ChargedKeepsInv(gt, g, scaled);
  }

  /** BUG_ON(nr_sync < 0) in cfq_group_served cannot fire. */
  lemma NrSyncNonNegative(qs: Queues, ts: Trees, gs: Groups, gt: G.Tree, busy: int, busySync: int, g: nat)
    requires RrInv(qs, ts, gs, gt, busy, busySync) && g in gs
    ensures forall c, t :: StFor(g, c, t) in ts
    ensures gs[g].nrCfqq - (CountAt(ts, g, RT, ASYNC) + CountAt(ts, g, BE, ASYNC)) - CountAt(ts, g, IDLE, ASYNC) >= 0
  {
    NrCfqqIsTreeTotal(qs, ts, gs, g);
    CountsNonNegative(ts, gs, g);
  }

  /** A busy queue's group is on the group tree. */
  lemma BusyGroupOnTree(qs: Queues, gs: Groups, gt: G.Tree, busy: int, busySync: int, q: nat)
    requires CountInv(qs, gs, gt, busy, busySync) && q in qs && qs[q].cfqg in gs && qs[q].onRr
    ensures busy >= 1 && gs[qs[q].cfqg].nrCfqq >= 1 && G.OnTree(gt, qs[q].cfqg)
  {
    assert q in OnRr(qs) && q in OnRrIn(qs, qs[q].cfqg);
  }

  /** Fields the counts do not depend on may change freely. */
  lemma OtherFieldsKeepCounts(qs: Queues, gs: Groups, gt: G.Tree, busy: int, busySync: int, q: nat, x: Queue)
    requires CountInv(qs, gs, gt, busy, busySync) && q in qs
    requires x.onRr == qs[q].onRr && x.cfqg == qs[q].cfqg && x.sync == qs[q].sync
    ensures CountInv(qs[q := x], gs, gt, busy, busySync)
  {
    forall g | g in gs {
      MarkCounts(qs, q, x, g);
    }
    MarkCounts(qs, q, x, x.cfqg);
  }

  lemma OtherFieldsKeepOnRr(qs: Queues, q: nat, x: Queue)
    requires OnRrInv(qs) && (x.onRr <==> x.tree.Some?)
    ensures OnRrInv(qs[q := x])
  {
  }

  /** The group was charged, and left the tree only if its last queue had nothing to do. */
  ghost predicate ServedGroup(gt: G.Tree, gt': G.Tree, g: nat, scaled: nat, mayLeave: bool, events: seq<G.Event>) {
    && G.OnTree(gt, g) && events != [] && events[0] == G.Serves(g, scaled)
    && T.LeftOrNot(G.Charged(gt, g, scaled), g, events[1..], gt')
    && (!mayLeave ==> gt' == G.Charged(gt, g, scaled))
  }

  /** Whose turn it is: that of the group of the active queue. */
  function TurnOf(qs: Queues, active: Option<nat>): (t: T.Turn)
    ensures !t.Left?
  {
    if active.Some? && active.value in qs then T.Held(qs[active.value].cfqg) else T.Free
  }

  /** The active queue, if there is one, belongs to the first group. */
  ghost predicate ActiveFirst(qs: Queues, gt: G.Tree, active: Option<nat>) {
    active.Some? && active.value in qs ==> G.IsFirst(gt, qs[active.value].cfqg)
  }

  /** A group that leaves is not that of the active queue. */
  lemma OthersLeave(qs: Queues, ts: Trees, gs: Groups, gt: G.Tree, gt': G.Tree, busy: int, busySync: int,
                    ix: map<nat, Index>, active: Option<nat>, g: nat, events: seq<G.Event>)
    requires G.TreeInv(gt) && T.LeftOrNot(gt, g, events, gt')
    requires RrInv(qs, ts, gs, gt', busy, busySync) && ActiveInv(qs, ix, active)
    ensures events != [] ==> TurnOf(qs, active) != T.Held(g)
  {
    if active.Some? && active.value in qs && events != [] {
      BusyGroupOnTree(qs, gs, gt', busy, busySync, active.value);
      G.TakeKeepsInv(gt, g);
    }
  }

  /**
   * A busy cooperator keeps its group on the tree when that is charged, and the group stays
   * first exactly if its lead was larger.
   */
  lemma StaysForCooperator(qs: Queues, ts: Trees, gs: Groups, gt: G.Tree, gt': G.Tree, busy: int, busySync: int,
                           g: nat, scaled: nat, mayLeave: bool, events: seq<G.Event>, p: nat)
    requires G.TreeInv(gt) && ServedGroup(gt, gt', g, scaled, mayLeave, events)
    requires RrInv(qs, ts, gs, gt', busy, busySync) && p in qs && qs[p].onRr && qs[p].cfqg == g
    ensures var all := events + [G.Activates(g, true)];
            T.Leads(gt, all, gt', T.Held(g), T.Held(g)) && T.Plain(all, true)
    ensures G.IsFirst(gt, g) ==> (G.IsFirst(gt', g) <==> T.Leading(gt, scaled))
  {
    BusyGroupOnTree(qs, gs, gt', busy, busySync, p);
    G.ChargedKeepsInv(gt, g, scaled);
    if events[1..] != [] {
      G.TakeKeepsInv(G.Charged(gt, g, scaled), g);
      assert false;
    }
    assert events == [G.Serves(g, scaled)];
    assert events + [G.Activates(g, true)] == [G.Serves(g, scaled), G.Activates(g, true)];
    T.LeadsToCooperator(gt, g, scaled);
    if G.IsFirst(gt, g) {
      T.ChargedStaysFirst(gt, scaled);
    }
  }

  /** A queue first in a tree of the first group belongs to that group. */
  lemma TopQueueGroup(qs: Queues, ts: Trees, gs: Groups, gt: G.Tree, busy: int, busySync: int, t: TreeId, q: nat)
    requires RrInv(qs, ts, gs, gt, busy, busySync) && t in ts && G.IsFirst(gt, t.g)
    requires ts[t].nodes != [] && ts[t].nodes[0].id == q && q in qs
    ensures G.IsFirst(gt, qs[q].cfqg)
  {
    assert NodesMatch(qs, ts, t);
    assert ts[t].nodes[0] in ts[t].nodes;
    assert LinkedAt(qs, ts, q, t);
  }

  lemma ActiveQueueFacts(qs: Queues, ix: map<nat, Index>, active: Option<nat>)
    requires ActiveInv(qs, ix, active) && active.Some?
    ensures var q := active.value;
            q in qs && q in ix && qs[q].onRr && RequestIndex.Inv(ix[q]) && (ix[q].next.Some? <==> ix[q].sort != [])
  {
  }

  lemma ActiveAfterExpiry(qs: Queues, ix: map<nat, Index>, q: nat, y: Queue)
    requires ActiveInv(qs, ix, Some(q)) && (y.onRr <==> ix[q].sort != []) && (y.prioTree ==> ix[q].sort != [])
    ensures ActiveInv(qs[q := y], ix, None)
  {
    hide RequestIndex.Inv;
    var qs' := qs[q := y];
    assert forall p :: p in qs' && p != q ==> qs'[p] == qs[p];
  }

  lemma NotBusyNotLinked(qs: Queues, q: nat)
    requires OnRrInv(qs) && q in qs
    ensures qs[q].onRr <==> qs[q].tree.Some?
  {
  }

  lemma TreeOfQueue(qs: Queues, ts: Trees, gs: Groups, q: nat)
    requires TreesInv(qs, ts, gs) && q in qs
    ensures qs[q].cfqg in gs && StOf(qs[q]) in ts
  {
  }

  function IdsOf(s: seq<Node>): set<nat> {
    set n | n in s :: n.id
  }

  lemma {:induction false} IdsCardinality(s: seq<Node>)
    requires DistinctNodes(s)
    ensures |IdsOf(s)| == |s|
  {
    if s != [] {
      IdsCardinality(s[1..]);
      assert s == [s[0]] + s[1..];
      assert IdsOf(s) == IdsOf(s[1..]) + {s[0].id};
      forall n | n in s[1..]
        ensures n.id != s[0].id
      {
        var j :| 0 <= j < |s[1..]| && s[1..][j] == n;
        assert s[j + 1].id != s[0].id;
      }
    }
  }

  function CountAt(ts: Trees, g: nat, c: WlClass, t: WlType): int
    requires StFor(g, c, t) in ts
  {
    ts[StFor(g, c, t)].count
  }

  /** cfq_group_busy_queues_wl. */
  function BusyInClass(ts: Trees, g: nat, c: WlClass): int
    requires forall c, t :: StFor(g, c, t) in ts
  {
    if c == IDLE then CountAt(ts, g, IDLE, ASYNC)
    else CountAt(ts, g, c, ASYNC) + CountAt(ts, g, c, SYNC_NOIDLE) + CountAt(ts, g, c, SYNC)
  }

  function Members(qs: Queues, t: TreeId): set<nat> {
    set q | q in qs && qs[q].tree == Some(t)
  }

  lemma ClassMembers(qs: Queues, ts: Trees, gs: Groups, g: nat, t: TreeId)
    requires TreesInv(qs, ts, gs) && OnRrInv(qs) && t in ts && t.g == g
    ensures |Members(qs, t)| == ts[t].count
    ensures Members(qs, t) == IdsOf(ts[t].nodes)
  {
    IdsCardinality(ts[t].nodes);
    assert NodesMatch(qs, ts, t);
    forall q | q in qs && qs[q].tree == Some(t)
      ensures q in IdsOf(ts[t].nodes) && qs[q].cfqg == g
    {
      assert LinkedAt(qs, ts, q, t);
      assert Node(qs[q].rbKey, q) in ts[t].nodes;
    }
    forall q | q in IdsOf(ts[t].nodes)
      ensures q in qs && qs[q].tree == Some(t) && qs[q].cfqg == g
    {
      var n :| n in ts[t].nodes && n.id == q;
      assert LinkedAt(qs, ts, q, t);
    }
    assert Members(qs, t) == IdsOf(ts[t].nodes);
  }

  function AllTrees(g: nat): seq<TreeId> {
    [StFor(g, RT, ASYNC), StFor(g, RT, SYNC_NOIDLE), StFor(g, RT, SYNC),
     StFor(g, BE, ASYNC), StFor(g, BE, SYNC_NOIDLE), StFor(g, BE, SYNC), StFor(g, IDLE, ASYNC)]
  }

  lemma AllTreesComplete(t: TreeId)
    requires t == StFor(t.g, t.c, t.t)
    ensures t in AllTrees(t.g)
  {
    var all := AllTrees(t.g);
    match t.c {
      case IDLE => assert t == all[6];
      case RT => assert t == all[if t.t == ASYNC then 0 else if t.t == SYNC_NOIDLE then 1 else 2];
      case BE => assert t == all[if t.t == ASYNC then 3 else if t.t == SYNC_NOIDLE then 4 else 5];
    }
  }

  lemma BusyQueuesAreInTrees(qs: Queues, ts: Trees, gs: Groups, g: nat)
    requires TreesInv(qs, ts, gs) && OnRrInv(qs)
    ensures InTrees(qs, AllTrees(g)) == OnRrIn(qs, g)
  {
    forall q | q in qs && qs[q].tree.Some?
      ensures qs[q].tree.value in AllTrees(g) <==> qs[q].cfqg == g
    {
      var t := qs[q].tree.value;
      assert LinkedAt(qs, ts, q, t);
      AllTreesComplete(t);
    }
  }

  /** The queues of a group are spread over its seven trees without overlap. */
  lemma NrCfqqIsTreeTotal(qs: Queues, ts: Trees, gs: Groups, g: nat)
    requires TreesInv(qs, ts, gs) && OnRrInv(qs) && g in gs
    ensures |OnRrIn(qs, g)| == BusyInClass(ts, g, RT) + BusyInClass(ts, g, BE) + BusyInClass(ts, g, IDLE)
  {
    var all := AllTrees(g);
    forall t | t in all
      ensures t in ts && |Members(qs, t)| == ts[t].count
    {
      ClassMembers(qs, ts, gs, g, t);
    }
    SevenTrees(g);
    BusyQueuesAreInTrees(qs, ts, gs, g);
    hide TreesInv, OnRrInv, AllTrees, NoDup;
    TreesPartition(qs, ts, all);
    TreeTotalOf7(ts, all);
  }

  lemma SevenTrees(g: nat)
    ensures |AllTrees(g)| == 7 && NoDup(AllTrees(g))
  {
  }

  function InTrees(qs: Queues, all: seq<TreeId>): set<nat> {
    set q | q in qs && qs[q].tree.Some? && qs[q].tree.value in all
  }

  function TreeTotal(ts: Trees, all: seq<TreeId>): int
    requires forall t :: t in all ==> t in ts
  {
    if all == [] then 0 else ts[all[0]].count + TreeTotal(ts, all[1..])
  }

  lemma {:induction false} TreesPartition(qs: Queues, ts: Trees, all: seq<TreeId>)
    requires NoDup(all)
    requires forall t :: t in all ==> t in ts && |Members(qs, t)| == ts[t].count
    ensures |InTrees(qs, all)| == TreeTotal(ts, all)
  {
    if all == [] {
      assert InTrees(qs, all) == {};
    } else {
      TreesPartition(qs, ts, all[1..]);
      var rest := InTrees(qs, all[1..]);
      assert all == [all[0]] + all[1..];
      assert InTrees(qs, all) == Members(qs, all[0]) + rest;
      assert all[0] !in all[1..];
      assert Members(qs, all[0]) !! rest;
    }
  }

  lemma TreeTotalOf7(ts: Trees, all: seq<TreeId>)
    requires |all| == 7 && forall t :: t in all ==> t in ts
    ensures TreeTotal(ts, all) == ts[all[0]].count + ts[all[1]].count + ts[all[2]].count + ts[all[3]].count
                                + ts[all[4]].count + ts[all[5]].count + ts[all[6]].count
  {
    forall i | 0 <= i < 7
      ensures TreeTotal(ts, all[i..]) == ts[all[i]].count + TreeTotal(ts, all[i + 1..])
    {
      assert all[i..][1..] == all[i + 1..];
    }
    assert all[0..] == all && all[7..] == [];
    assert TreeTotal(ts, all[1..]) == ts[all[1]].count + TreeTotal(ts, all[2..]);
    assert TreeTotal(ts, all[3..]) == ts[all[3]].count + TreeTotal(ts, all[4..]);
    assert TreeTotal(ts, all[5..]) == ts[all[5]].count + TreeTotal(ts, all[6..]);
  }

  // ---------- selection ----------

  /** The class of highest priority with a busy queue: RT, then BE, then IDLE. */
  ghost predicate HighestClass(ts: Trees, g: nat, c: WlClass)
    requires forall c, t :: StFor(g, c, t) in ts
  {
    && BusyInClass(ts, g, c) > 0
    && (c != RT ==> BusyInClass(ts, g, RT) == 0)
    && (c == IDLE ==> BusyInClass(ts, g, BE) == 0)
  }

  /** The chosen tree is a busy one of the highest class of the first group. */
  ghost predicate TopTree(ts: Trees, gs: Groups, gt: G.Tree, sg: Option<nat>, c: WlClass, t: WlType) {
    && ForestInv(ts, gs)
    && gt.nodes != [] && sg == Some(gt.nodes[0].id) && sg.value in gs
    && HighestClass(ts, sg.value, c)
    && ts[StFor(sg.value, c, t)].nodes != []
  }

  /** Queue q is first in that tree. */
  ghost predicate TopOfSchedule(ts: Trees, gs: Groups, gt: G.Tree, sg: Option<nat>, c: WlClass, t: WlType, q: nat) {
    TopTree(ts, gs, gt, sg, c, t) && ts[StFor(sg.value, c, t)].nodes[0].id == q
  }

  /** The chosen type's first key is no larger than that of any other type of the class. */
  ghost predicate LowestKeyType(ts: Trees, g: nat, c: WlClass, t: WlType)
    requires forall c, t :: StFor(g, c, t) in ts
  {
    && ts[StFor(g, c, t)].nodes != []
    && forall u :: ts[StFor(g, c, u)].nodes != [] ==>
                     ts[StFor(g, c, t)].nodes[0].key <= ts[StFor(g, c, u)].nodes[0].key
  }

  lemma GroupTrees(qs: Queues, ts: Trees, gs: Groups, g: nat)
    requires TreesInv(qs, ts, gs) && g in gs
    ensures forall c, t :: StFor(g, c, t) in ts && ts[StFor(g, c, t)].count == |ts[StFor(g, c, t)].nodes|
  {
    forall c, t
      ensures StFor(g, c, t) in ts && ts[StFor(g, c, t)].count == |ts[StFor(g, c, t)].nodes|
    {
      assert RootInv(ts[StFor(g, c, t)]);
    }
  }

  /** With no active queue, "some queue is busy" and "some request is pending" agree. */
  lemma BusyIffPending(qs: Queues, ts: Trees, gs: Groups, gt: G.Tree, busy: int, busySync: int, ix: map<nat, Index>)
    requires RrInv(qs, ts, gs, gt, busy, busySync) && ActiveInv(qs, ix, None)
    ensures busy > 0 <==> |Pending(ix)| > 0
  {
    if busy > 0 {
      var q :| q in OnRr(qs);
      PendingMember(ix, q);
    }
    if |Pending(ix)| > 0 {
      PendingSomewhere(ix);
      var q :| q in ix && ix[q].sort != [];
      assert q in OnRr(qs);
    }
  }

  /** The first group on the tree exists when a queue is busy, and has a busy tree. */
  lemma FirstGroupIsBusy(qs: Queues, ts: Trees, gs: Groups, gt: G.Tree, busy: int, busySync: int)
    requires RrInv(qs, ts, gs, gt, busy, busySync) && busy > 0
    ensures gt.nodes != [] && gt.nodes[0].id in gs
    ensures forall c, t :: StFor(gt.nodes[0].id, c, t) in ts
    ensures var g := gt.nodes[0].id;
            BusyInClass(ts, g, RT) + BusyInClass(ts, g, BE) + BusyInClass(ts, g, IDLE) > 0
  {
    var q :| q in OnRr(qs);
    BusyGroupOnTree(qs, gs, gt, busy, busySync, q);
    var g := gt.nodes[0].id;
    assert gt.nodes[0] in gt.nodes;
    assert G.OnTree(gt, g);
    NrCfqqIsTreeTotal(qs, ts, gs, g);
  }

  lemma BusyNonNegative(qs: Queues, ts: Trees, gs: Groups, gt: G.Tree, busy: int, busySync: int)
    requires RrInv(qs, ts, gs, gt, busy, busySync)
    ensures busy >= 0
  {
  }

  lemma NobodyBusy(qs: Queues, ts: Trees, gs: Groups, gt: G.Tree, busy: int, busySync: int)
    requires RrInv(qs, ts, gs, gt, busy, busySync) && busy == 0
    ensures forall q :: q in qs ==> !qs[q].onRr
  {
    assert forall q :: q in qs && qs[q].onRr ==> q in OnRr(qs);
  }

  lemma NobodyPending(qs: Queues, ts: Trees, gs: Groups, gt: G.Tree, busy: int, busySync: int,
                      ix: map<nat, Index>, active: Option<nat>)
    requires RrInv(qs, ts, gs, gt, busy, busySync) && ActiveInv(qs, ix, active) && busy == 0
    ensures |Pending(ix)| == 0
  {
    NobodyBusy(qs, ts, gs, gt, busy, busySync);
    if |Pending(ix)| > 0 {
      PendingSomewhere(ix);
      assert false;
    }
  }

  lemma SomeTreeNonEmpty(qs: Queues, ts: Trees, gs: Groups, g: nat)
    requires TreesInv(qs, ts, gs) && g in gs && forall c, t :: StFor(g, c, t) in ts
    requires BusyInClass(ts, g, RT) + BusyInClass(ts, g, BE) + BusyInClass(ts, g, IDLE) > 0
    ensures forall i :: 0 <= i < 7 ==> AllTrees(g)[i] in ts
    ensures exists i :: 0 <= i < 7 && ts[AllTrees(g)[i]].nodes != []
  {
    GroupTrees(qs, ts, gs, g);
    var all := AllTrees(g);
    assert ts[all[0]].count + ts[all[1]].count + ts[all[2]].count + ts[all[3]].count
         + ts[all[4]].count + ts[all[5]].count + ts[all[6]].count > 0;
    assert forall i :: 0 <= i < 7 ==> ts[all[i]].count == |ts[all[i]].nodes|;
  }

  lemma GetNextKeepsRr(qs: Queues, ts: Trees, gs: Groups, gt: G.Tree, busy: int, busySync: int)
    requires RrInv(qs, ts, gs, gt, busy, busySync)
    ensures RrInv(qs, ts, gs, G.GetNext(gt), busy, busySync) && G.GetNext(gt).nodes == gt.nodes
  {
    G.GetNextKeepsInv(gt);
    assert forall g :: G.OnTree(G.GetNext(gt), g) <==> G.OnTree(gt, g);
  }

  lemma ActivateKeepsActive(qs: Queues, ix: map<nat, Index>, q: nat)
    requires ActiveInv(qs, ix, None) && q in qs && qs[q].onRr
    ensures ActiveInv(qs, ix, Some(q)) && q in ix && ix[q].sort != []
  {
  }

  lemma SameNodesSameCounts(ts: Trees, ts': Trees, g: nat, c: WlClass)
    requires SameNodes(ts, ts') && (forall c, t :: StFor(g, c, t) in ts)
    ensures forall c, t :: StFor(g, c, t) in ts'
    ensures BusyInClass(ts', g, c) == BusyInClass(ts, g, c)
  {
  }

  lemma NodesAt(ts: Trees, ts': Trees, t: TreeId)
    requires SameNodes(ts, ts') && t in ts
    ensures t in ts' && ts'[t].nodes == ts[t].nodes && ts'[t].count == ts[t].count
  {
  }

  lemma SameNodesRefl(ts: Trees)
    ensures SameNodes(ts, ts)
  {
  }

  lemma SameNodesTrans(a: Trees, b: Trees, c: Trees)
    requires SameNodes(a, b) && SameNodes(b, c)
    ensures SameNodes(a, c)
  {
  }

  lemma RrTrees(qs: Queues, ts: Trees, gs: Groups, gt: G.Tree, busy: int, busySync: int)
    requires RrInv(qs, ts, gs, gt, busy, busySync)
    ensures TreesInv(qs, ts, gs)
  {
  }

  /** Lookups refill caches only. */
  lemma SameNodesKeepRr(qs: Queues, ts: Trees, ts': Trees, gs: Groups, gt: G.Tree, busy: int, busySync: int)
    requires RrInv(qs, ts, gs, gt, busy, busySync) && TreesInv(qs, ts', gs)
    ensures RrInv(qs, ts', gs, gt, busy, busySync) && ForestInv(ts', gs)
  {
  }

  lemma GroupOfQueue(qs: Queues, ts: Trees, gs: Groups, q: nat)
    requires TreesInv(qs, ts, gs) && q in qs
    ensures qs[q].cfqg in gs
  {
  }

  lemma RrOfQueue(qs: Queues, ts: Trees, gs: Groups, gt: G.Tree, busy: int, busySync: int, q: nat)
    requires RrInv(qs, ts, gs, gt, busy, busySync) && q in qs
    ensures qs[q].cfqg in gs && StOf(qs[q]) in ts && (qs[q].onRr <==> qs[q].tree.Some?)
    ensures qs[q].onRr ==> busy >= 1 && gs[qs[q].cfqg].nrCfqq >= 1 && G.OnTree(gt, qs[q].cfqg)
  {
    if qs[q].onRr {
      BusyGroupOnTree(qs, gs, gt, busy, busySync, q);
    }
  }

  lemma RrFields(qs: Queues, ts: Trees, gs: Groups, gt: G.Tree, busy: int, busySync: int, q: nat, x: Queue)
    requires RrInv(qs, ts, gs, gt, busy, busySync) && q in qs
    requires x.cfqg == qs[q].cfqg && x.tree == qs[q].tree && x.rbKey == qs[q].rbKey
    requires x.onRr == qs[q].onRr && x.sync == qs[q].sync
    ensures RrInv(qs[q := x], ts, gs, gt, busy, busySync)
  {
    OtherFieldsKeepTrees(qs, ts, gs, q, x);
    OtherFieldsKeepCounts(qs, gs, gt, busy, busySync, q, x);
  }

  /** Type t has been looked at: `low` is at most its first key, or nothing was found yet. */
  ghost predicate Considered(ts: Trees, g: nat, c: WlClass, t: WlType, found: bool, low: int)
    requires StFor(g, c, t) in ts
  {
    var s := ts[StFor(g, c, t)].nodes;
    s == [] || (found && low <= s[0].key)
  }

  lemma LowestOfThree(ts: Trees, g: nat, c: WlClass, best: WlType, found: bool, low: int)
    requires forall c, t :: StFor(g, c, t) in ts && ts[StFor(g, c, t)].count == |ts[StFor(g, c, t)].nodes|
    requires Considered(ts, g, c, ASYNC, found, low) && Considered(ts, g, c, SYNC_NOIDLE, found, low)
    requires Considered(ts, g, c, SYNC, found, low)
    requires found ==> ts[StFor(g, c, best)].nodes != [] && low == ts[StFor(g, c, best)].nodes[0].key
    ensures BusyInClass(ts, g, c) > 0 ==> LowestKeyType(ts, g, c, best)
  {
    assert c == IDLE ==> StFor(g, c, ASYNC) == StFor(g, IDLE, ASYNC);
    forall u | ts[StFor(g, c, u)].nodes != []
      ensures found && ts[StFor(g, c, best)].nodes[0].key <= ts[StFor(g, c, u)].nodes[0].key
    {
      match u {
        case ASYNC =>
        case SYNC_NOIDLE =>
        case SYNC =>
      }
    }
  }

  lemma TopTreeGroup(ts: Trees, gs: Groups, gt: G.Tree, sg: Option<nat>, c: WlClass, t: WlType)
    requires TopTree(ts, gs, gt, sg, c, t)
    ensures sg.Some? && sg.value in gs && StFor(sg.value, c, t) in ts && ts[StFor(sg.value, c, t)].nodes != []
  {
  }

  lemma SameNodesSameTop(ts: Trees, ts': Trees, gs: Groups, gt: G.Tree, sg: Option<nat>, c: WlClass, t: WlType)
    requires SameNodes(ts, ts') && TopTree(ts, gs, gt, sg, c, t) && ForestInv(ts', gs)
    ensures TopTree(ts', gs, gt, sg, c, t)
    ensures ts'[StFor(sg.value, c, t)].nodes == ts[StFor(sg.value, c, t)].nodes
  {
  }

  /** A cooperator outlives the expiry of another queue, with its requests. */
  lemma CooperatorReady(qs: Queues, qs': Queues, ix: map<nat, Index>, q: nat, p: nat)
    requires ActiveInv(qs, ix, Some(q)) && CooperatorOf(qs, q, p) && q in qs' && qs' == qs[q := qs'[q]]
    ensures p in qs' && qs'[p].onRr && p in ix && ix[p].sort != []
  {
  }

  /** Queue q has at most lost its idle window, and that only if it seeks deeply. */
  ghost predicate OnlyIdleWindow(qs: Queues, qs': Queues, q: nat, deepSeek: bool) {
    q in qs && (qs' == qs || (deepSeek && qs' == qs[q := qs[q].(idleWindow := false)]))
  }

  /** What the close-cooperator search may return for queue q. */
  predicate CooperatorOf(qs: Queues, q: nat, p: nat)
    requires q in qs
  {
    && p in qs && p != q && qs[p].prioTree
    && qs[q].ioClass != IDLE && qs[q].sync && qs[p].sync
    && qs[p].cfqg == qs[q].cfqg
    && (qs[p].ioClass == RT <==> qs[q].ioClass == RT)
  }

  // ---------- requests coming and going ----------

  lemma Cancel(a: multiset<Request>, m: multiset<Request>, b: multiset<Request>, x: multiset<Request>,
               minus: multiset<Request>, plus: multiset<Request>)
    requires a + m == b + x && m + plus == x + minus && minus <= m && m <= b
    ensures a == b - minus + plus && minus <= b
  {
    forall e
      ensures a[e] == (b - minus + plus)[e]
    {
      assert (a + m)[e] == (b + x)[e] && (m + plus)[e] == (x + minus)[e];
      assert minus[e] <= m[e] <= b[e];
    }
  }

  /** A dispatch or merge took request r from queue q. */
  lemma RequestLeaves(ix: map<nat, Index>, q: nat, x: Index, r: Request)
    requires q in ix && r in ix[q].sort && multiset(x.sort) == multiset(ix[q].sort) - multiset{r}
    ensures Pending(ix[q := x]) == Pending(ix) - multiset{r} && r in Pending(ix)
    ensures |Pending(ix[q := x])| == |Pending(ix)| - 1
  {
    PendingUpdate(ix, q, x);
    var m := multiset(ix[q].sort);
    assert r in m && multiset{r} <= m;
    assert m + multiset{} == multiset(x.sort) + multiset{r};
    Cancel(Pending(ix[q := x]), m, Pending(ix), multiset(x.sort), multiset{r}, multiset{});
    assert multiset{r}[r] == 1;
  }

  lemma RequestArrives(ix: map<nat, Index>, q: nat, x: Index, r: Request)
    requires q in ix && multiset(x.sort) == multiset(ix[q].sort) + multiset{r}
    ensures Pending(ix[q := x]) == Pending(ix) + multiset{r}
    ensures |Pending(ix[q := x])| == |Pending(ix)| + 1
  {
    PendingUpdate(ix, q, x);
    var m := multiset(ix[q].sort);
    assert m + multiset{r} == multiset(x.sort) + multiset{};
    Cancel(Pending(ix[q := x]), m, Pending(ix), multiset(x.sort), multiset{}, multiset{r});
  }

  lemma RequestMoves(ix: map<nat, Index>, q: nat, x: Index, r: Request, r': Request)
    requires q in ix && r in ix[q].sort && multiset(x.sort) == multiset(ix[q].sort) - multiset{r} + multiset{r'}
    ensures Pending(ix[q := x]) == Pending(ix) - multiset{r} + multiset{r'} && r in Pending(ix)
    ensures |Pending(ix[q := x])| == |Pending(ix)|
  {
    PendingUpdate(ix, q, x);
    var m := multiset(ix[q].sort);
    assert r in m && multiset{r} <= m;
    assert m + multiset{r'} == multiset(x.sort) + multiset{r};
    Cancel(Pending(ix[q := x]), m, Pending(ix), multiset(x.sort), multiset{r}, multiset{r'});
    assert multiset{r}[r] == 1;
  }

  /** Queue q's requests change; it is active or still has some. */
  lemma IndexChange(qs: Queues, ix: map<nat, Index>, active: Option<nat>, q: nat, y: Queue, x: Index)
    requires ActiveInv(qs, ix, active) && q in qs && RequestIndex.Inv(x)
    requires y == qs[q].(prioTree := y.prioTree, onRr := y.onRr, tree := y.tree)
    requires x.sort != [] ==> y.onRr
    requires y.onRr && x.sort == [] ==> active == Some(q)
    requires active == Some(q) ==> y.onRr
    requires y.prioTree ==> x.sort != []
    ensures ActiveInv(qs[q := y], ix[q := x], active)
  {
    hide RequestIndex.Inv;
    var qs', ix' := qs[q := y], ix[q := x];
    assert forall p :: p in qs' && p != q ==> qs'[p] == qs[p] && ix'[p] == ix[p];
  }

  lemma RefsAfter(ix: map<nat, Index>, rs: map<nat, Refs>, q: nat, x: Index)
    requires RefInv(ix, rs) && q in ix && |x.sort| <= rs[q].requests
    ensures RefInv(ix[q := x], rs)
  {
  }

  lemma QueueFacts(qs: Queues, ix: map<nat, Index>, rs: map<nat, Refs>, active: Option<nat>, q: nat)
    requires ActiveInv(qs, ix, active) && RefInv(ix, rs) && q in qs
    ensures q in ix && q in rs && RequestIndex.Inv(ix[q]) && |ix[q].sort| <= rs[q].requests <= rs[q].count
    ensures ix[q].sort != [] ==> qs[q].onRr
    ensures qs[q].onRr && ix[q].sort == [] ==> active == Some(q)
    ensures active == Some(q) ==> qs[q].onRr
    ensures qs[q].prioTree ==> ix[q].sort != []
  {
  }

  /** Everything a dispatch from the active queue, or a merge that leaves requests, must keep. */
  lemma TakeKeeps(qs: Queues, ts: Trees, gs: Groups, gt: G.Tree, busy: int, busySync: int,
                  ix: map<nat, Index>, rs: map<nat, Refs>, active: Option<nat>,
                  q: nat, x: Index, r: Request, prioTree: bool)
    requires RrInv(qs, ts, gs, gt, busy, busySync) && ActiveInv(qs, ix, active) && RefInv(ix, rs)
    requires q in qs && q in ix && r in ix[q].sort && RequestIndex.Inv(x)
    requires multiset(x.sort) == multiset(ix[q].sort) - multiset{r} && |x.sort| == |ix[q].sort| - 1
    requires prioTree ==> x.sort != []
    ensures RrInv(qs[q := qs[q].(prioTree := prioTree)], ts, gs, gt, busy, busySync)
    ensures RefInv(ix[q := x], rs) && ix[q := x].Keys == qs.Keys
    ensures active == Some(q) || x.sort != [] ==> ActiveInv(qs[q := qs[q].(prioTree := prioTree)], ix[q := x], active)
    ensures r in Pending(ix) && Pending(ix[q := x]) == Pending(ix) - multiset{r}
    ensures |Pending(ix[q := x])| == |Pending(ix)| - 1
    ensures qs[q].onRr
  {
    QueueFacts(qs, ix, rs, active, q);
    hide RrInv, RequestIndex.Inv, Pending;
    RequestLeaves(ix, q, x, r);
    RefsAfter(ix, rs, q, x);
    var y := qs[q].(prioTree := prioTree);
    RrFields(qs, ts, gs, gt, busy, busySync, q, y);
    if active == Some(q) || x.sort != [] {
      IndexChange(qs, ix, active, q, y, x);
    }
  }

  /** A request changed its place within its queue. */
  lemma MoveKeeps(qs: Queues, ts: Trees, gs: Groups, gt: G.Tree, busy: int, busySync: int,
                  ix: map<nat, Index>, rs: map<nat, Refs>, active: Option<nat>,
                  q: nat, x: Index, r: Request, r': Request, prioTree: bool)
    requires RrInv(qs, ts, gs, gt, busy, busySync) && ActiveInv(qs, ix, active) && RefInv(ix, rs)
    requires q in qs && q in ix && r in ix[q].sort && RequestIndex.Inv(x)
    requires multiset(x.sort) == multiset(ix[q].sort) - multiset{r} + multiset{r'} && |x.sort| == |ix[q].sort|
    ensures RrInv(qs[q := qs[q].(prioTree := prioTree)], ts, gs, gt, busy, busySync)
    ensures RefInv(ix[q := x], rs)
    ensures ActiveInv(qs[q := qs[q].(prioTree := prioTree)], ix[q := x], active)
    ensures r in Pending(ix) && Pending(ix[q := x]) == Pending(ix) - multiset{r} + multiset{r'}
    ensures |Pending(ix[q := x])| == |Pending(ix)| && x.next.Some?
  {
    QueueFacts(qs, ix, rs, active, q);
    assert x.sort != [];
    assert x.next.Some?;
    hide RrInv, RequestIndex.Inv, Pending;
    RequestMoves(ix, q, x, r, r');
    RefsAfter(ix, rs, q, x);
    var y := qs[q].(prioTree := prioTree);
    RrFields(qs, ts, gs, gt, busy, busySync, q, y);
    IndexChange(qs, ix, active, q, y, x);
  }

  /** A request joined queue q, which is busy by now. */
  lemma ArriveKeeps(qs: Queues, qs': Queues, ix: map<nat, Index>, rs: map<nat, Refs>, active: Option<nat>,
                    q: nat, x: Index, r: Request)
    requires ActiveInv(qs, ix, active) && RefInv(ix, rs) && q in qs && q in ix && q in rs
    requires RequestIndex.Inv(x) && multiset(x.sort) == multiset(ix[q].sort) + multiset{r}
    requires |x.sort| == |ix[q].sort| + 1 && |ix[q].sort| < rs[q].requests
    requires q in qs' && qs' == qs[q := qs'[q]] && qs'[q].onRr
    ensures ActiveInv(qs', ix[q := x], active) && RefInv(ix[q := x], rs)
    ensures Pending(ix[q := x]) == Pending(ix) + multiset{r}
    ensures |Pending(ix[q := x])| == |Pending(ix)| + 1
  {
    hide RequestIndex.Inv, Pending;
    assert |x.sort| > 0;
    ArrivalKeepsActive(qs, qs', ix, active, q, x);
    RefsAfter(ix, rs, q, x);
    hide ActiveInv, RefInv;
    RequestArrives(ix, q, x, r);
  }

  lemma ArrivalKeepsActive(qs: Queues, qs': Queues, ix: map<nat, Index>, active: Option<nat>, q: nat, x: Index)
    requires ActiveInv(qs, ix, active) && q in qs && RequestIndex.Inv(x) && |x.sort| > 0
    requires q in qs' && qs' == qs[q := qs'[q]] && qs'[q].onRr
    ensures ActiveInv(qs', ix[q := x], active)
  {
    hide RequestIndex.Inv;
    assert forall p :: p in qs' && p != q ==> qs'[p] == qs[p] && ix[q := x][p] == ix[p];
  }

  /** A queue's class, priority, idle window and residual slice are nobody's index. */
  lemma ReclassifyKeeps(qs: Queues, ts: Trees, gs: Groups, gt: G.Tree, busy: int, busySync: int,
                        ix: map<nat, Index>, active: Option<nat>, q: nat, x: Queue)
    requires RrInv(qs, ts, gs, gt, busy, busySync) && ActiveInv(qs, ix, active) && q in qs
    requires x == qs[q].(ioClass := x.ioClass, ioprio := x.ioprio, idleWindow := x.idleWindow)
    ensures RrInv(qs[q := x], ts, gs, gt, busy, busySync) && ActiveInv(qs[q := x], ix, active)
  {
    hide RrInv;
    RrFields(qs, ts, gs, gt, busy, busySync, q, x);
    ReclassifyKeepsActive(qs, ix, active, q, x);
  }

  lemma ReclassifyKeepsActive(qs: Queues, ix: map<nat, Index>, active: Option<nat>, q: nat, x: Queue)
    requires ActiveInv(qs, ix, active) && q in qs && x.onRr == qs[q].onRr && x.prioTree == qs[q].prioTree
    ensures ActiveInv(qs[q := x], ix, active)
  {
    hide RequestIndex.Inv;
  }

  lemma GroupFieldsKeepRr(qs: Queues, ts: Trees, gs: Groups, gt: G.Tree, busy: int, busySync: int, g: nat, x: Group)
    requires RrInv(qs, ts, gs, gt, busy, busySync) && g in gs && x.nrCfqq == gs[g].nrCfqq
    ensures RrInv(qs, ts, gs[g := x], gt, busy, busySync)
  {
    GroupFieldsKeepTrees(qs, ts, gs, gs[g := x]);
  }

  /** The nodes of the other queues. */
  function Without(s: seq<Node>, id: nat): seq<Node> {
    if s == [] then [] else if s[0].id == id then Without(s[1..], id) else [s[0]] + Without(s[1..], id)
  }

  /** One second before the first key among `others` and the old place of the queue that was x. */
  function FrontKeyOver(others: seq<Node>, x: Queue, st: TreeId, now: nat): int {
    Wrap((if x.tree == Some(st) && (others == [] || x.rbKey < others[0].key) then x.rbKey
          else if others != [] then others[0].key else now) - NSEC_PER_SEC)
  }

  /**
   * Queue q, formerly x, was put at the front of tree st.  Alone it is first.  If others were
   * ahead of it or it comes from elsewhere, it is first if and only if their first key is at
   * least one second.  If it was ahead, its own key decides, unless the others are nearly the
   * whole range of keys behind it.
   */
  ghost predicate FrontPlace(ts: Trees, st: TreeId, x: Queue, q: nat) {
    x.ioClass != IDLE ==>
      && st in ts && ts[st].nodes != []
      && var others, first := Without(ts[st].nodes, q), ts[st].nodes[0].id == q;
         if others == [] then first
         else if x.tree == Some(st) && x.rbKey < others[0].key
         then first <==> x.rbKey >= NSEC_PER_SEC || others[0].key - x.rbKey > U64 - NSEC_PER_SEC
         else first <==> others[0].key >= NSEC_PER_SEC
  }

  /** In particular it is first when no key of that tree was below one second. */
  lemma FrontUnlessEarly(ts: Trees, st: TreeId, x: Queue, q: nat)
    requires FrontPlace(ts, st, x, q) && x.ioClass != IDLE && x.rbKey >= NSEC_PER_SEC
    requires forall n :: n in ts[st].nodes ==> n.id == q || NSEC_PER_SEC <= n.key < U64
    ensures ts[st].nodes[0].id == q
  {
    var others := Without(ts[st].nodes, q);
    if others != [] {
      WithoutMembers(ts[st].nodes, q);
      assert others[0] in others;
    }
  }

  /** The wrapped front key compared with the first of the others, in terms of the keys before. */
  lemma FrontKeyBelow(r: Root, others: seq<Node>, x: Queue, st: TreeId, now: nat)
    requires Keys64(r) && others != [] && others[0] in r.nodes
    requires x.tree == Some(st) ==> exists id :: Node(x.rbKey, id) in r.nodes
    ensures FrontKeyOver(others, x, st, now) < others[0].key <==>
            if x.tree == Some(st) && x.rbKey < others[0].key
            then x.rbKey >= NSEC_PER_SEC || others[0].key - x.rbKey > U64 - NSEC_PER_SEC
            else others[0].key >= NSEC_PER_SEC
  {
    if x.tree == Some(st) && x.rbKey < others[0].key {
      FrontUnderflow(x.rbKey, others[0].key);
    } else {
      FrontUnderflow(others[0].key, others[0].key);
    }
  }

  lemma {:induction false} WithoutMembers(s: seq<Node>, id: nat)
    ensures forall n :: n in Without(s, id) <==> n in s && n.id != id
  {
    if s != [] {
      WithoutMembers(s[1..], id);
      assert forall n :: n in s <==> n == s[0] || n in s[1..];
    }
  }

  lemma {:induction false} WithoutNobody(s: seq<Node>, id: nat)
    requires forall n :: n in s ==> n.id != id
    ensures Without(s, id) == s
  {
    if s != [] {
      assert s[0] in s;
      WithoutNobody(s[1..], id);
    }
  }

  lemma {:induction false} WithoutOne(s: seq<Node>, n: Node)
    requires DistinctNodes(s) && n in s
    ensures Without(s, n.id) == Remove(s, n)
  {
    if s[0] == n {
      assert forall m :: m in s[1..] ==> m.id != n.id;
      WithoutNobody(s[1..], n.id);
    } else {
      assert forall m :: m in s[1..] ==> m.id != s[0].id;
      WithoutOne(s[1..], n);
    }
  }

  lemma {:induction false} WithoutAppend(a: seq<Node>, b: seq<Node>, id: nat)
    ensures Without(a + b, id) == Without(a, id) + Without(b, id)
  {
    if a == [] {
      assert a + b == b;
    } else {
      assert (a + b)[1..] == a[1..] + b;
      WithoutAppend(a[1..], b, id);
    }
  }

  lemma WithoutInserted(s: seq<Node>, n: Node)
    requires forall m :: m in s ==> m.id != n.id
    ensures Without(Insert(KeyOf, s, n), n.id) == s
  {
    var k := Rank(KeyOf, s, n.key);
    assert Insert(KeyOf, s, n) == s[..k] + [n] + s[k..];
    assert s == s[..k] + s[k..];
    hide Insert, Rank;
    WithoutLinked(s[..k], n, s[k..]);
  }

  lemma WithoutLinked(a: seq<Node>, n: Node, b: seq<Node>)
    requires forall m :: m in a + b ==> m.id != n.id
    ensures Without(a + [n] + b, n.id) == a + b
  {
    WithoutAppend(a + [n], b, n.id);
    WithoutAppend(a, [n], n.id);
    assert forall m :: m in a ==> m in a + b;
    assert forall m :: m in b ==> m in a + b;
    WithoutNobody(a, n.id);
    WithoutNobody(b, n.id);
    assert Without([n], n.id) == [];
  }

  /** The first key of a tree, from the queue's own node and the rest. */
  lemma FrontKeyIs(r: Root, st: TreeId, x: Queue, q: nat, now: nat)
    requires RootInv(r) && (x.tree == Some(st) <==> HasNode(r, q))
    requires x.tree == Some(st) ==> Node(x.rbKey, q) in r.nodes
    ensures FrontKey(r, now) == FrontKeyOver(Without(r.nodes, q), x, st, now)
  {
    if x.tree == Some(st) {
      OwnKeyLeads(r.nodes, Node(x.rbKey, q));
    } else {
      WithoutNobody(r.nodes, q);
    }
    FirstIsMinimum(r);
    hide Without, Wrap, RootInv;
  }

  /** The first key is a node's own one exactly when that is below the first key of the others. */
  lemma OwnKeyLeads(s: seq<Node>, m: Node)
    requires Sorted(KeyOf, s) && DistinctNodes(s) && m in s
    ensures var others := Without(s, m.id);
            s[0].key == if others == [] || m.key < others[0].key then m.key else others[0].key
  {
    WithoutMembers(s, m.id);
    var others := Without(s, m.id);
    if s[0].id == m.id {
      OneNodePerId(s, s[0], m);
      if others != [] {
        assert others[0] in others;
        FirstIsLeast(s, others[0]);
      }
    } else {
      assert others[0] == s[0];
      FirstIsLeast(s, m);
    }
  }

  lemma FirstIsLeast(s: seq<Node>, m: Node)
    requires Sorted(KeyOf, s) && m in s
    ensures s[0].key <= m.key
  {
    var i :| 0 <= i < |s| && s[i] == m;
    assert i > 0 ==> KeyOf(s[0]) <= KeyOf(s[i]);
  }

  lemma OneNodePerId(s: seq<Node>, a: Node, b: Node)
    requires DistinctNodes(s) && a in s && b in s
    ensures a.id == b.id ==> a == b
  {
  }

  /** Requeueing at the front, whichever tree the queue came from. */
  lemma FrontIsPlaced(r: Root, u: seq<Node>, st: TreeId, x: Queue, q: nat, now: nat)
    requires RootInv(r) && Keys64(r) && (x.tree == Some(st) <==> HasNode(r, q))
    requires x.tree == Some(st) ==> Node(x.rbKey, q) in r.nodes
    requires u == Requeued(r, st, x, q, FrontKey(r, now))
    ensures u != [] && Without(u, q) == Without(r.nodes, q)
    ensures var others := Without(r.nodes, q);
            u[0].id == q <==> others == [] || FrontKey(r, now) < others[0].key
  {
    var others, key := Without(r.nodes, q), FrontKey(r, now);
    WithoutMembers(r.nodes, q);
    if x.tree == Some(st) && x.rbKey == key {
      SamePlaceIsNotFirst(r, x.rbKey, q, now);
    } else {
      if x.tree == Some(st) {
        WithoutOne(r.nodes, Node(x.rbKey, q));
        RemoveSorted(KeyOf, r.nodes, Node(x.rbKey, q));
      } else {
        WithoutNobody(r.nodes, q);
      }
      WithoutInserted(others, Node(key, q));
      InsertFirst(KeyOf, others, Node(key, q));
      if others != [] {
        assert others[0] in others;
      }
    }
  }

  /** The key of the place a queue already has is never the front key of a queue that is first. */
  lemma SamePlaceIsNotFirst(r: Root, key: int, q: nat, now: nat)
    requires RootInv(r) && Keys64(r) && Node(key, q) in r.nodes && key == FrontKey(r, now)
    ensures r.nodes[0].id != q && Without(r.nodes, q) != [] && Without(r.nodes, q)[0] == r.nodes[0]
    ensures r.nodes[0].key <= key
  {
    FirstIsMinimum(r);
    assert r.nodes[0] in r.nodes;
    OneSecondMoves(r.nodes[0].key);
    OneNodePerId(r.nodes, r.nodes[0], Node(key, q));
  }

  lemma OneSecondMoves(key: int)
    requires 0 <= key < U64
    ensures Wrap(key - NSEC_PER_SEC) != key
  {
    assert key < NSEC_PER_SEC ==> Wrap(key - NSEC_PER_SEC) == key - NSEC_PER_SEC + U64;
  }

  /** A busy queue was linked elsewhere among the trees; nothing else changed. */
  lemma RequeuedKeeps(qs: Queues, ts: Trees, ts': Trees, gs: Groups, gt: G.Tree, busy: int, busySync: int,
                      ix: map<nat, Index>, q: nat, y: Queue)
    requires RrInv(qs, ts, gs, gt, busy, busySync) && ActiveInv(qs, ix, None)
    requires q in qs && qs[q].onRr && TreesInv(qs[q := y], ts', gs)
    requires y == qs[q].(tree := y.tree, rbKey := y.rbKey, resid := y.resid) && y.tree.Some?
    ensures RrInv(qs[q := y], ts', gs, gt, busy, busySync) && ActiveInv(qs[q := y], ix, None)
  {
    hide TreesInv;
    OtherFieldsKeepCounts(qs, gs, gt, busy, busySync, q, y);
    OtherFieldsKeepOnRr(qs, q, y);
    hide RrInv;
    ReclassifyKeepsActive(qs, ix, None, q, y);
  }

  /** An emptied queue that is not active stops being busy. */
  lemma RetireKeeps(qs: Queues, ix: map<nat, Index>, active: Option<nat>, q: nat, y: Queue, x: Index)
    requires ActiveInv(qs, ix, active) && q in qs && RequestIndex.Inv(x) && x.sort == [] && active != Some(q)
    requires y == qs[q].(prioTree := false, onRr := false, tree := None)
    ensures ActiveInv(qs[q := y], ix[q := x], active)
  {
    IndexChange(qs, ix, active, q, y, x);
  }

  // ---------- queues and groups appearing and disappearing ----------

  lemma NewQueueKeepsTrees(qs: Queues, ts: Trees, gs: Groups, q: nat, x: Queue)
    requires TreesInv(qs, ts, gs) && q !in qs && x.cfqg in gs && x.tree.None?
    ensures TreesInv(qs[q := x], ts, gs)
  {
    hide ForestInv;
    var qs' := qs[q := x];
    forall p | p in qs' && qs'[p].tree.Some?
      ensures LinkedAt(qs', ts, p, qs'[p].tree.value)
    {
      assert LinkedAt(qs, ts, p, qs[p].tree.value);
    }
    forall t | t in ts
      ensures NodesMatch(qs', ts, t)
    {
      assert NodesMatch(qs, ts, t);
    }
  }

  lemma NewQueueKeepsRr(qs: Queues, ts: Trees, gs: Groups, gt: G.Tree, busy: int, busySync: int, q: nat, x: Queue)
    requires RrInv(qs, ts, gs, gt, busy, busySync)
    requires q !in qs && x.cfqg in gs && !x.onRr && x.tree.None?
    ensures RrInv(qs[q := x], ts, gs, gt, busy, busySync)
  {
    hide TreesInv;
    NewQueueKeepsTrees(qs, ts, gs, q, x);
    var qs' := qs[q := x];
    assert OnRr(qs') == OnRr(qs) && OnRrSync(qs') == OnRrSync(qs);
    forall g
      ensures OnRrIn(qs', g) == OnRrIn(qs, g)
    {
    }
  }

  lemma NewQueueKeepsRest(qs: Queues, ix: map<nat, Index>, rs: map<nat, Refs>, active: Option<nat>,
                          q: nat, x: Queue, r: Refs)
    requires ActiveInv(qs, ix, active) && RefInv(ix, rs)
    requires q !in qs && !x.onRr && !x.prioTree && r.requests == 0 && r.count > 0
    ensures ActiveInv(qs[q := x], ix[q := EMPTY], active) && RefInv(ix[q := EMPTY], rs[q := r])
    ensures Pending(ix[q := EMPTY]) == Pending(ix)
  {
    EmptyIndexInv();
    hide RequestIndex.Inv, Pending;
    PendingNewQueue(ix, q);
    assert RefInv(ix[q := EMPTY], rs[q := r]) by {
      hide ActiveInv;
    }
    assert ActiveInv(qs[q := x], ix[q := EMPTY], active) by {
      hide RefInv;
    }
  }

  lemma EmptyIndexInv()
    ensures RequestIndex.Inv(EMPTY) && EMPTY.sort == []
  {
  }

  lemma DropQueueKeepsTrees(qs: Queues, ts: Trees, gs: Groups, q: nat)
    requires TreesInv(qs, ts, gs) && q in qs && qs[q].tree.None?
    ensures TreesInv(qs - {q}, ts, gs)
  {
    hide ForestInv;
    var qs' := qs - {q};
    forall p | p in qs' && qs'[p].tree.Some?
      ensures LinkedAt(qs', ts, p, qs'[p].tree.value)
    {
      assert LinkedAt(qs, ts, p, qs[p].tree.value);
    }
    forall t | t in ts
      ensures NodesMatch(qs', ts, t)
    {
      assert NodesMatch(qs, ts, t);
      assert forall n :: n in ts[t].nodes ==> n.id != q;
    }
  }

  lemma DropQueueKeepsRr(qs: Queues, ts: Trees, gs: Groups, gt: G.Tree, busy: int, busySync: int, q: nat)
    requires RrInv(qs, ts, gs, gt, busy, busySync) && q in qs && !qs[q].onRr
    ensures RrInv(qs - {q}, ts, gs, gt, busy, busySync)
  {
    hide TreesInv;
    DropQueueKeepsTrees(qs, ts, gs, q);
    var qs' := qs - {q};
    assert OnRr(qs') == OnRr(qs) && OnRrSync(qs') == OnRrSync(qs);
    forall g
      ensures OnRrIn(qs', g) == OnRrIn(qs, g)
    {
    }
  }

  lemma DropQueueKeepsRest(qs: Queues, ix: map<nat, Index>, rs: map<nat, Refs>, active: Option<nat>, q: nat)
    requires ActiveInv(qs, ix, active) && RefInv(ix, rs) && q in qs && !qs[q].onRr
    ensures ActiveInv(qs - {q}, ix - {q}, active) && RefInv(ix - {q}, rs - {q})
    ensures Pending(ix - {q}) == Pending(ix)
  {
    hide RequestIndex.Inv, Pending;
    assert ix[q].sort == [];
    PendingPick(ix, q);
  }

  lemma NewGroupKeepsForest(ts: Trees, gs: Groups, g: nat)
    requires ForestInv(ts, gs) && g !in gs
    ensures forall t :: t in AllTrees(g) ==> t !in ts && t.g == g
    ensures ForestInv(ts + (map t | t in AllTrees(g) :: EMPTY_ROOT), gs[g := Group(0, 0, ASYNC, BE)])
  {
    var ts', gs' := ts + (map t | t in AllTrees(g) :: EMPTY_ROOT), gs[g := Group(0, 0, ASYNC, BE)];
    forall t | t in AllTrees(g)
      ensures t.g == g && t == StFor(t.g, t.c, t.t) && t !in ts
    {
      var i :| 0 <= i < 7 && t == AllTrees(g)[i];
    }
    forall h, c, t | h in gs'
      ensures StFor(h, c, t) in ts'
    {
      if h == g {
        AllTreesComplete(StFor(h, c, t));
      }
    }
  }

  lemma NewGroupKeepsRr(qs: Queues, ts: Trees, gs: Groups, gt: G.Tree, busy: int, busySync: int, g: nat)
    requires RrInv(qs, ts, gs, gt, busy, busySync) && g !in gs
    ensures RrInv(qs, ts + (map t | t in AllTrees(g) :: EMPTY_ROOT), gs[g := Group(0, 0, ASYNC, BE)], gt, busy,
                  busySync)
  {
    NewGroupKeepsForest(ts, gs, g);
    NewTreesKeepLinks(qs, ts, AllTrees(g));
    NewGroupKeepsCounts(qs, gs, gt, busy, busySync, g) by {
      hide ForestInv, AllTrees, LinksInv, MatchInv;
    }
    hide ForestInv, AllTrees, LinksInv, MatchInv, CountInv;
  }

  lemma NewGroupKeepsCounts(qs: Queues, gs: Groups, gt: G.Tree, busy: int, busySync: int, g: nat)
    requires CountInv(qs, gs, gt, busy, busySync) && g !in gs && forall q :: q in qs ==> qs[q].cfqg in gs
    ensures CountInv(qs, gs[g := Group(0, 0, ASYNC, BE)], gt, busy, busySync)
  {
    assert OnRrIn(qs, g) == {};
  }

  lemma NewTreesKeepLinks(qs: Queues, ts: Trees, all: seq<TreeId>)
    requires LinksInv(qs, ts) && MatchInv(qs, ts) && forall t :: t in all ==> t !in ts
    ensures LinksInv(qs, ts + (map t | t in all :: EMPTY_ROOT)) && MatchInv(qs, ts + (map t | t in all :: EMPTY_ROOT))
  {
    var ts' := ts + (map t | t in all :: EMPTY_ROOT);
    forall p | p in qs && qs[p].tree.Some?
      ensures LinkedAt(qs, ts', p, qs[p].tree.value)
    {
      assert LinkedAt(qs, ts, p, qs[p].tree.value);
    }
    forall t | t in ts'
      ensures NodesMatch(qs, ts', t)
    {
      assert t in ts ==> NodesMatch(qs, ts, t);
    }
  }
}
