/**
 * cfq_data and the queues and groups it owns, updated in place by the handlers that run
 * under the queue lock.  Clocks, timers, idle tests and charges are parameters, so each
 * contract holds for every choice of them.  Each BUG_ON of the source is an assert.
 */
module CfqCore {
  import opened Seqs
  import opened Kernel
  import opened Ordered
  import opened Requests
  import opened RequestChoice
  import RI = RequestIndex
  import opened ServiceRoot
  import opened CfqState
  import opened Elevator
  import G = GroupTree
  import T = Turns

  /** What the timers, idle tests and the cooperator search answer during one selection. */
  datatype Answers = Answers(waitBusy: bool, sliceUsed: bool, mustDispatch: bool, inFlight: bool,
                             shouldIdle: bool, timerActive: bool, deepSeek: bool, groupIdle: bool,
                             coop: Option<nat>, clash: bool, scaled: nat, wlSlice: nat)

  /** Selection goes on past the idle timer of an empty queue with slice left, and finds it seeking deeply. */
  predicate Deepens(a: Answers, rqQueued: int, empty: bool) {
    rqQueued > 0 && empty && (!a.sliceUsed || a.mustDispatch) && a.coop.None? && !a.timerActive && a.deepSeek
  }

  /** What the counts of requests in flight answer when the selected queue may dispatch. */
  datatype DispatchAnswers = DispatchAnswers(mustDispatch: bool, asyncInFlight: bool, room: bool)

  /** What clocks and estimators answer when a request for another queue arrives. */
  datatype PreemptAnswers = PreemptAnswers(mustDispatch: bool, descendant: bool, sliceUsed: bool, prioPending: bool,
                                           shouldIdle: bool, expected: bool)

  /**
   * Whether request rq for queue y preempts the active queue x, which is `empty` or not, while
   * the workload type `serving` is served.
   */
  predicate Preempts(x: Queue, empty: bool, y: Queue, rq: Request, serving: WlType, a: PreemptAnswers) {
    if y.ioClass == IDLE then false
    else if x.ioClass == IDLE then true
    else if x.ioClass == RT && y.ioClass != RT then false
    else
      || (rq.sync && !x.sync && !a.mustDispatch)
      || (a.descendant
          && (|| a.sliceUsed || x.ioClass != y.ioClass || (serving == SYNC_NOIDLE && TypeOf(y) == SYNC_NOIDLE && empty)
              || (rq.prio && !a.prioPending) || (empty && !a.shouldIdle) || a.expected))
  }

  lemma SameKindPreempts(x: Queue, empty: bool, y: Queue, y': Queue, rq: Request, serving: WlType, a: PreemptAnswers)
    requires SameKind(y, y')
    ensures Preempts(x, empty, y, rq, serving, a) == Preempts(x, empty, y', rq, serving, a)
  {
  }

  /** Preemption never goes down in class, and always up from idle or, among relatives, to real time. */
  lemma PreemptionFollowsClass(x: Queue, empty: bool, y: Queue, rq: Request, serving: WlType, a: PreemptAnswers)
    ensures Preempts(x, empty, y, rq, serving, a) ==> y.ioClass != IDLE && (x.ioClass == RT ==> y.ioClass == RT)
    ensures x.ioClass == IDLE ==> (Preempts(x, empty, y, rq, serving, a) <==> y.ioClass != IDLE)
    ensures y.ioClass == RT && x.ioClass != RT && a.descendant ==> Preempts(x, empty, y, rq, serving, a)
    ensures !a.descendant && x.ioClass != IDLE && x.sync ==> !Preempts(x, empty, y, rq, serving, a)
  {
  }

  /** Queue x with the priority of its process and the idle window of `kind`, as an arrival leaves it. */
  function Updated(x: Queue, kind: Queue): Queue {
    x.(ioClass := kind.ioClass, ioprio := kind.ioprio,
       idleWindow := kind.ioClass != IDLE && if x.sync then kind.idleWindow else x.idleWindow)
  }

  /** Same class, type and group. */
  ghost predicate SameKind(x: Queue, y: Queue) {
    x.ioClass == y.ioClass && x.sync == y.sync && x.idleWindow == y.idleWindow && x.cfqg == y.cfqg
  }

  /** Outcome of looking at the active queue. */
  datatype Decision = Keep | Wait | Expire(next: Option<nat>)

  class CfqData {
    const tunables: Tunables
    const sliceSync: nat
    const sliceAsync: nat
    const queue: RequestQueue

    var queues: Queues
    var index: map<nat, RI.Index>
    var refs: map<nat, Refs>
    var trees: Trees
    var groups: Groups
    var groupTree: G.Tree
    var busyQueues: int
    var busySyncQueues: int
    var rqQueued: int
    var lastPosition: nat
    var active: Option<nat>
    var servingGroup: Option<nat>
    var servingClass: WlClass
    var servingType: WlType
    var workloadExpires: int
    /** What has happened to the group tree: lookups, activations, charges, joins and leaves. */
    ghost var history: seq<G.Event>

    /** What every handler may rely on and must restore. */
    ghost predicate Inv()
      reads this
    {
      && RrInv(queues, trees, groups, groupTree, busyQueues, busySyncQueues)
      && ActiveInv(queues, index, active)
      && RefInv(index, refs)
      && rqQueued == |Pending(index)|
    }

    ghost function Turn(): (t: T.Turn)
      reads this
      ensures !t.Left?
    {
      TurnOf(queues, active)
    }

    /** The active queue, if there is one, belongs to the first group. */
    ghost predicate OnTop()
      reads this
    {
      ActiveFirst(queues, groupTree, active)
    }

    /** Boundary of the block layer: the elevator counts the same requests. */
    ghost predicate Valid()
      reads this, queue
    {
      Inv() && queue.nrSorted == rqQueued
    }

    /** One root group and no queue, as cfq_init_queue leaves it. */
    constructor (t: Tunables, sync: nat, async: nat, q: RequestQueue, root: nat)
      requires q.nrSorted == 0
      ensures Valid() && queue == q && active == None && rqQueued == 0
      ensures queues == map[] && groups.Keys == {root} && groupTree == G.EMPTY_TREE && history == []
    {
      tunables, sliceSync, sliceAsync, queue := t, sync, async, q;
      queues, index, refs := map[], map[], map[];
      groups := map[root := Group(0, 0, ASYNC, BE)];
      trees := map t | t in AllTrees(root) :: EMPTY_ROOT;
      groupTree := G.EMPTY_TREE;
      busyQueues, busySyncQueues, rqQueued, lastPosition := 0, 0, 0, 0;
      active, servingGroup := None, None;
      servingClass, servingType, workloadExpires := BE, ASYNC, 0;
      history := [];
      new;
      EmptyInv(root, groups, trees);
    }

    // ---------- leftmost lookup and tree membership ----------

    /** cfq_rb_first: the minimum of the tree, refilling its cache. */
    method RbFirst(t: TreeId) returns (r: Option<nat>)
      requires TreesInv(queues, trees, groups) && t in trees
      modifies `trees
      ensures TreesInv(queues, trees, groups) && SameNodes(old(trees), trees)
      ensures r == if trees[t].nodes == [] then None else Some(trees[t].nodes[0].id)
      ensures r.Some? ==> r.value in queues && queues[r.value].tree == Some(t)
                          && queues[r.value].rbKey == trees[t].nodes[0].key
    {
      RefillKeepsTrees(queues, trees, groups, t);
      FirstIsMinimum(trees[t]);
      var n := First(trees[t]);
      trees := trees[t := RefillLeft(trees[t])];
      assert NodesMatch(queues, trees, t);
      r := if n.Some? then Some(n.value.id) else None;
    }

    /** cfq_rb_erase and forgetting the tree. */
    method Unlink(q: nat)
      requires TreesInv(queues, trees, groups) && q in queues && queues[q].tree.Some?
      modifies `queues, `trees
      ensures TreesInv(queues, trees, groups)
      ensures queues == old(queues)[q := old(queues)[q].(tree := None)]
      ensures trees.Keys == old(trees).Keys
      ensures forall t :: t in trees && old(queues)[q].tree != Some(t) ==> trees[t] == old(trees)[t]
      ensures forall t :: t in trees && old(queues)[q].tree == Some(t) ==>
                trees[t] == EraseNode(old(trees)[t], Node(old(queues)[q].rbKey, q))
    {
      var x := queues[q];
      UnlinkKeepsTrees(queues, trees, groups, q);
      trees := trees[x.tree.value := EraseNode(trees[x.tree.value], Node(x.rbKey, q))];
      queues := queues[q := x.(tree := None)];
    }

    method GroupNotifyAdd(g: nat)
      requires g in groups
      modifies `groups, `groupTree, `history
      ensures groups == old(groups)[g := old(groups)[g].(nrCfqq := old(groups)[g].nrCfqq + 1)]
      ensures history == old(history) + T.JoinOf(old(groupTree), g)
      ensures groupTree == if G.OnTree(old(groupTree), g) then old(groupTree) else G.Join(old(groupTree), g)
    {
      groups := groups[g := groups[g].(nrCfqq := groups[g].nrCfqq + 1)];
      if G.OnTree(groupTree, g) {
        return;
      }
      groupTree := G.Join(groupTree, g);
      history := history + [G.Joins(g)];
    }

    method GroupNotifyDel(g: nat)
      requires g in groups && groups[g].nrCfqq >= 1 && G.OnTree(groupTree, g)
      modifies `groups, `groupTree, `history
      ensures groups.Keys == old(groups).Keys && forall h :: h in groups && h != g ==> groups[h] == old(groups)[h]
      ensures groups[g].nrCfqq == old(groups)[g].nrCfqq - 1
      ensures history == old(history) + if groups[g].nrCfqq > 0 then [] else [G.Leaves(g)]
      ensures groupTree == if groups[g].nrCfqq > 0 then old(groupTree) else G.Take(old(groupTree), g)
      ensures groups[g].savedSlice == if groups[g].nrCfqq > 0 then old(groups)[g].savedSlice else 0
      ensures groups[g].savedType == old(groups)[g].savedType && groups[g].savedClass == old(groups)[g].savedClass
    {
      groups := groups[g := groups[g].(nrCfqq := groups[g].nrCfqq - 1)];
      if groups[g].nrCfqq != 0 {
        return;
      }
      groupTree := G.Take(groupTree, g);
      history := history + [G.Leaves(g)];
      groups := groups[g := groups[g].(savedSlice := 0)];
    }

    /** The key part of cfq_service_tree_add; a residual slice is spent on a tail position. */
    method TakeServiceKey(q: nat, st: TreeId, addFront: bool, now: nat) returns (rbKey: int)
      requires TreesInv(queues, trees, groups) && q in queues && st in trees
      requires st.g == queues[q].cfqg
      modifies `queues, `trees
      ensures TreesInv(queues, trees, groups) && SameNodes(old(trees), trees)
      ensures rbKey == ServiceKey(old(trees)[st], groups[st.g].nrCfqq, old(queues)[q], q, addFront, now,
                                  sliceSync, sliceAsync)
      ensures 0 <= rbKey < U64
      ensures queues == old(queues)[q := old(queues)[q].(resid :=
                if old(queues)[q].ioClass != IDLE && !addFront then 0 else old(queues)[q].resid)]
    {
      hide TreesInv;
      GroupOfQueue(queues, trees, groups, q);
      SameNodesRefl(trees);
      var x := queues[q];
      if x.ioClass == IDLE {
        rbKey := IdleKey(trees[st], q, now);
      } else if !addFront {
        rbKey := TailKey(SliceOffset(groups[x.cfqg].nrCfqq, sliceSync,
                                     if x.sync then sliceSync else sliceAsync, x.ioprio), x.resid, now);
        OtherFieldsKeepTrees(queues, trees, groups, q, x.(resid := 0));
        queues := queues[q := x.(resid := 0)];
      } else {
        RefillKeepsTrees(queues, trees, groups, st);
        rbKey := FrontKey(trees[st], now);
        trees := trees[st := RefillLeft(trees[st])];
      }
    }

    /** Leave the old tree, if any, and link q in st under its new key. */
    method Relink(q: nat, st: TreeId, rbKey: int)
      requires TreesInv(queues, trees, groups) && q in queues && st in trees
      requires st.g == queues[q].cfqg && 0 <= rbKey < U64
      modifies `queues, `trees
      ensures TreesInv(queues, trees, groups)
      ensures queues == old(queues)[q := old(queues)[q].(tree := Some(st), rbKey := rbKey)]
      ensures var rest := if old(queues)[q].tree == Some(st)
                          then Remove(old(trees)[st].nodes, Node(old(queues)[q].rbKey, q)) else old(trees)[st].nodes;
              st in trees && trees[st].nodes == Insert(KeyOf, rest, Node(rbKey, q))
    {
      hide TreesInv, Insert, Remove, Rank;
      if queues[q].tree.Some? {
        Unlink(q);
      }
      LinkKeepsTrees(queues, trees, groups, q, st, rbKey);
      Overwrite(old(queues), q, queues[q], queues[q].(tree := Some(st), rbKey := rbKey));
      trees := trees[st := AddNode(trees[st], Node(rbKey, q))];
      queues := queues[q := queues[q].(tree := Some(st), rbKey := rbKey)];
    }

    /** Relink q, unless it is at the same position already. */
    method Place(q: nat, st: TreeId, rbKey: int)
      requires TreesInv(queues, trees, groups) && q in queues && st in trees
      requires st.g == queues[q].cfqg && 0 <= rbKey < U64
      modifies `queues, `trees
      ensures TreesInv(queues, trees, groups)
      ensures queues == old(queues)[q := old(queues)[q].(tree := Some(st), rbKey := rbKey)]
      ensures st in trees && trees[st].nodes == Requeued(old(trees)[st], st, old(queues)[q], q, rbKey)
    {
      hide TreesInv, Insert, Remove, Rank;
      if queues[q].tree == Some(st) && rbKey == queues[q].rbKey {
        assert queues == queues[q := queues[q].(tree := Some(st), rbKey := rbKey)];
        return;
      }
      Relink(q, st, rbKey);
    }

    /** The key and the place: all of cfq_service_tree_add but the notification. */
    method TakePlace(q: nat, st: TreeId, addFront: bool, now: nat)
      requires TreesInv(queues, trees, groups) && q in queues && st in trees && st == StOf(queues[q])
      requires st.g in groups
      modifies `queues, `trees
      ensures TreesInv(queues, trees, groups)
      ensures TookPlace(old(queues), old(trees), groups, queues, trees, q, addFront, now, sliceSync, sliceAsync)
    {
      hide TreesInv, ServiceKey, SameNodes, Requeued;
      var rbKey := TakeServiceKey(q, st, addFront, now);
      NodesAt(old(trees), trees, st);
      ghost var y := queues[q];
      RequeuedSame(old(trees)[st], trees[st], st, old(queues)[q], y, q, rbKey);
      Place(q, st, rbKey);
      Overwrite(old(queues), q, y, queues[q]);
    }

    /**
     * cfq_service_tree_add: (re)link q in the tree of its current class and type.  The
     * group hears of it only when q was in no tree and is not put at the front.
     */
    method ServiceTreeAdd(q: nat, addFront: bool, now: nat)
      requires TreesInv(queues, trees, groups) && q in queues && StOf(queues[q]) in trees
      modifies `queues, `trees, `groups, `groupTree, `history
      ensures TreesInv(queues, trees, groups) && groups.Keys == old(groups).Keys
      ensures TookPlace(old(queues), old(trees), old(groups), queues, trees, q, addFront, now, sliceSync, sliceAsync)
      ensures var g := old(queues)[q].cfqg;
              if addFront || old(queues)[q].tree.Some?
              then groups == old(groups) && groupTree == old(groupTree) && history == old(history)
              else && groups == old(groups)[g := old(groups)[g].(nrCfqq := old(groups)[g].nrCfqq + 1)]
                   && history == old(history) + T.JoinOf(old(groupTree), g)
                   && groupTree == (if G.OnTree(old(groupTree), g) then old(groupTree) else G.Join(old(groupTree), g))
    {
      hide TreesInv, TookPlace, G.OnTree, G.Join, T.JoinOf;
      GroupOfQueue(queues, trees, groups, q);
      var x := queues[q];
      var newCfqq := x.tree.None?;
      TakePlace(q, StOf(x), addFront, now);
      if !addFront && newCfqq {
        GroupNotifyAdd(x.cfqg);
        GroupFieldsKeepTrees(queues, trees, old(groups), groups);
      }
    }

    /** cfq_prio_tree_add; `clash` says another queue already sits at that sector. */
    method PrioTreeAdd(q: nat, clash: bool)
      requires q in queues && q in index
      modifies `queues
      ensures queues == old(queues)[q := old(queues)[q].(prioTree :=
                old(queues)[q].ioClass != IDLE && index[q].next.Some? && !clash)]
    {
      queues := queues[q := queues[q].(prioTree := false)];
      if queues[q].ioClass == IDLE {
        return;
      }
      if index[q].next == None {
        return;
      }
      queues := queues[q := queues[q].(prioTree := !clash)];
    }

    /** What a queue looks like after joining its service tree at the tail. */
    ghost predicate Queued(x: Queue, y: Queue, prioTree: bool) {
      y == x.(onRr := true, tree := Some(StOf(x)), rbKey := y.rbKey, resid := y.resid, prioTree := prioTree)
    }

    /** cfq_resort_rr_list on a busy queue. */
    method ResortRrList(q: nat, clash: bool, now: nat)
      requires TreesInv(queues, trees, groups) && q in queues && q in index
      requires queues[q].onRr && queues[q].tree.Some?
      modifies `queues, `trees, `groups, `groupTree, `history
      ensures TreesInv(queues, trees, groups)
      ensures q in queues && queues == old(queues)[q := queues[q]]
      ensures Queued(old(queues)[q], queues[q], old(queues)[q].ioClass != IDLE && index[q].next.Some? && !clash)
      ensures groups == old(groups) && groupTree == old(groupTree) && history == old(history)
    {
      hide TreesInv, ServiceKey, Requeued;
      TreeOfQueue(queues, trees, groups, q);
      ServiceTreeAdd(q, false, now);
      OtherFieldsKeepTrees(queues, trees, groups, q, queues[q].(prioTree :=
        queues[q].ioClass != IDLE && index[q].next.Some? && !clash));
      PrioTreeAdd(q, clash);
    }

    /** cfq_add_cfqq_rr. */
    method AddCfqqRr(q: nat, clash: bool, now: nat)
      requires RrInv(queues, trees, groups, groupTree, busyQueues, busySyncQueues)
      requires q in queues && q in index && !queues[q].onRr
      modifies `queues, `trees, `groups, `groupTree, `busyQueues, `busySyncQueues, `history
      ensures RrInv(queues, trees, groups, groupTree, busyQueues, busySyncQueues)
      ensures q in queues && queues == old(queues)[q := queues[q]]
      ensures Queued(old(queues)[q], queues[q], old(queues)[q].ioClass != IDLE && index[q].next.Some? && !clash)
      ensures busyQueues == old(busyQueues) + 1
      ensures history == old(history) + T.JoinOf(old(groupTree), old(queues)[q].cfqg)
      ensures groupTree == G.Step(old(groupTree), G.Joins(old(queues)[q].cfqg))
    {
      hide TreesInv, CountInv, OnRrInv, ServiceKey, Requeued, G.OnTree, G.Join, T.JoinOf;
      assert !queues[q].onRr;
      ghost var qs := queues;
      var x := queues[q];
      NotBusyNotLinked(queues, q);
      OtherFieldsKeepTrees(queues, trees, groups, q, x.(onRr := true));
      queues := queues[q := x.(onRr := true)];
      busyQueues := busyQueues + 1;
      if queues[q].sync {
        busySyncQueues := busySyncQueues + 1;
      }
      TreeOfQueue(queues, trees, groups, q);
      ServiceTreeAdd(q, false, now);
      Overwrite(qs, q, x.(onRr := true), queues[q]);
      ghost var y := queues[q];
      OtherFieldsKeepTrees(queues, trees, groups, q, y.(prioTree :=
        y.ioClass != IDLE && index[q].next.Some? && !clash));
      PrioTreeAdd(q, clash);
      Overwrite(qs, q, y, queues[q]);
      AddCounts(qs, old(groups), old(groupTree), old(busyQueues), old(busySyncQueues), q, queues[q]);
      OtherFieldsKeepOnRr(qs, q, queues[q]);
    }

    /** cfq_del_cfqq_rr. */
    method DelCfqqRr(q: nat) returns (ghost events: seq<G.Event>)
      requires RrInv(queues, trees, groups, groupTree, busyQueues, busySyncQueues)
      requires q in queues && queues[q].onRr
      modifies `queues, `trees, `groups, `groupTree, `busyQueues, `busySyncQueues, `history
      ensures RrInv(queues, trees, groups, groupTree, busyQueues, busySyncQueues)
      ensures queues == old(queues)[q := old(queues)[q].(onRr := false, tree := None, prioTree := false)]
      ensures busyQueues == old(busyQueues) - 1
      ensures groups.Keys == old(groups).Keys
      ensures history == old(history) + events && T.LeftOrNot(old(groupTree), old(queues)[q].cfqg, events, groupTree)
    {
      hide TreesInv, CountInv, OnRrInv;
      ghost var qs := queues;
      var g := queues[q].cfqg;
      TreeOfQueue(queues, trees, groups, q);
      BusyGroupOnTree(queues, groups, groupTree, busyQueues, busySyncQueues, q);
      LeaveTrees(q);
      assert groups[g].nrCfqq >= 1;
      GroupNotifyDel(g);
      events := if groups[g].nrCfqq > 0 then [] else [G.Leaves(g)];
      GroupFieldsKeepTrees(queues, trees, old(groups), groups);
      assert busyQueues != 0;
      busyQueues := busyQueues - 1;
      if queues[q].sync {
        busySyncQueues := busySyncQueues - 1;
      }
      DelCounts(qs, old(groups), old(groupTree), old(busyQueues), old(busySyncQueues), q, queues[q], groups, groupTree);
      OtherFieldsKeepOnRr(qs, q, queues[q]);
    }

    /** The queue's own part: no longer busy, in no service tree and on no priority tree. */
    method LeaveTrees(q: nat)
      requires TreesInv(queues, trees, groups) && q in queues
      modifies `queues, `trees
      ensures TreesInv(queues, trees, groups)
      ensures queues == old(queues)[q := old(queues)[q].(onRr := false, tree := None, prioTree := false)]
    {
      hide TreesInv;
      ghost var qs := queues;
      var x := queues[q];
      OtherFieldsKeepTrees(queues, trees, groups, q, x.(onRr := false));
      queues := queues[q := x.(onRr := false)];
      if queues[q].tree.Some? {
        Unlink(q);
      }
      Overwrite(qs, q, x.(onRr := false), x.(onRr := false, tree := None));
      OtherFieldsKeepTrees(queues, trees, groups, q, queues[q].(prioTree := false));
      queues := queues[q := queues[q].(prioTree := false)];
      Overwrite(qs, q, x.(onRr := false, tree := None), x.(onRr := false, tree := None, prioTree := false));
    }

    // ---------- slices ----------

    /** cfq_group_served: charge the group and, while its workload has time left, save it. */
    method GroupServed(g: nat, scaled: nat, now: nat)
      requires RrInv(queues, trees, groups, groupTree, busyQueues, busySyncQueues)
      requires g in groups && G.OnTree(groupTree, g)
      modifies `groups, `groupTree, `history
      ensures RrInv(queues, trees, groups, groupTree, busyQueues, busySyncQueues)
      ensures groupTree == G.Charged(old(groupTree), g, scaled) && history == old(history) + [G.Serves(g, scaled)]
      ensures groups == old(groups)[g := groups[g]]
      ensures groups[g] == if workloadExpires > now
                           then Group(old(groups)[g].nrCfqq, workloadExpires - now, servingType, servingClass)
                           else old(groups)[g].(savedSlice := 0)
    {
      hide TreesInv, CountInv, G.Charged;
      NrSyncNonNegative(queues, trees, groups, groupTree, busyQueues, busySyncQueues, g);
      var nrSync := groups[g].nrCfqq - (CountAt(trees, g, RT, ASYNC) + CountAt(trees, g, BE, ASYNC))
                    - CountAt(trees, g, IDLE, ASYNC);
      assert nrSync >= 0;
      groupTree := G.Charged(groupTree, g, scaled);
      history := history + [G.Serves(g, scaled)];
      if workloadExpires > now {
        groups := groups[g := Group(groups[g].nrCfqq, workloadExpires - now, servingType, servingClass)];
      } else {
        groups := groups[g := groups[g].(savedSlice := 0)];
      }
      ChargeKeepsCounts(queues, old(groups), old(groupTree), busyQueues, busySyncQueues, g, scaled, groups[g]);
      GroupFieldsKeepTrees(queues, trees, old(groups), groups);
    }

    /** __cfq_set_active_queue, as far as the invariant is concerned. */
    method SetActiveQueue(q: nat, ghost coop: bool)
      requires q in queues
      modifies `active, `history
      ensures active == Some(q) && history == old(history) + [G.Activates(queues[q].cfqg, coop)]
    {
      active := Some(q);
      history := history + [G.Activates(queues[q].cfqg, coop)];
    }

    /** The store of a timed-out slice's remainder. */
    method StoreResid(q: nat, resid: int)
      requires RrInv(queues, trees, groups, groupTree, busyQueues, busySyncQueues) && q in queues
      modifies `queues
      ensures RrInv(queues, trees, groups, groupTree, busyQueues, busySyncQueues)
      ensures queues == old(queues)[q := old(queues)[q].(resid := resid)]
    {
      hide RrInv;
      RrFields(queues, trees, groups, groupTree, busyQueues, busySyncQueues, q, queues[q].(resid := resid));
      queues := queues[q := queues[q].(resid := resid)];
    }

    /** Drop a busy queue that ran empty, or give one with requests its next position. */
    method RetireOrRequeue(q: nat, clash: bool, now: nat) returns (ghost events: seq<G.Event>)
      requires RrInv(queues, trees, groups, groupTree, busyQueues, busySyncQueues)
      requires q in queues && q in index && queues[q].onRr
      modifies `queues, `trees, `groups, `groupTree, `busyQueues, `busySyncQueues, `history
      ensures RrInv(queues, trees, groups, groupTree, busyQueues, busySyncQueues)
      ensures q in queues && queues == old(queues)[q := queues[q]] && groups.Keys == old(groups).Keys
      ensures if index[q].sort == []
              then queues[q] == old(queues)[q].(onRr := false, tree := None, prioTree := false)
                   && busyQueues == old(busyQueues) - 1
              else Queued(old(queues)[q], queues[q], old(queues)[q].ioClass != IDLE && index[q].next.Some? && !clash)
                   && busyQueues == old(busyQueues) && groupTree == old(groupTree) && events == []
      ensures history == old(history) + events && T.LeftOrNot(old(groupTree), old(queues)[q].cfqg, events, groupTree)
    {
      hide TreesInv, CountInv, OnRrInv;
      NotBusyNotLinked(queues, q);
      events := [];
      if queues[q].onRr && index[q].sort == [] {
        events := DelCfqqRr(q);
      }
      if queues[q].onRr {
        ResortRrList(q, clash, now);
        OtherFieldsKeepCounts(old(queues), groups, groupTree, busyQueues, busySyncQueues, q, queues[q]);
        OtherFieldsKeepOnRr(old(queues), q, queues[q]);
      }
    }

    /** Its first half: the remainder is stored and the group charged. */
    method ChargeSlice(q: nat, timedOut: bool, resid: int, scaled: nat, now: nat)
      requires RrInv(queues, trees, groups, groupTree, busyQueues, busySyncQueues) && q in queues
      requires queues[q].cfqg in groups && G.OnTree(groupTree, queues[q].cfqg)
      modifies `queues, `groups, `groupTree, `history
      ensures RrInv(queues, trees, groups, groupTree, busyQueues, busySyncQueues) && groups.Keys == old(groups).Keys
      ensures var x := old(queues)[q]; queues == old(queues)[q := if timedOut then x.(resid := resid) else x]
      ensures groupTree == G.Charged(old(groupTree), old(queues)[q].cfqg, scaled)
      ensures history == old(history) + [G.Serves(old(queues)[q].cfqg, scaled)]
    {
      hide RrInv, G.Charged;
      if timedOut {
        StoreResid(q, resid);
      }
      GroupServed(queues[q].cfqg, scaled, now);
    }

    /**
     * __cfq_slice_expired on the active queue: its group is charged, an empty queue stops
     * being busy, a non-empty one is requeued, and no queue is active.
     */
    method SliceExpired(q: nat, timedOut: bool, resid: int, scaled: nat, clash: bool, now: nat)
      returns (ghost events: seq<G.Event>)
      requires Inv() && active == Some(q) && q in queues && q in index
      modifies `queues, `trees, `groups, `groupTree, `busyQueues, `busySyncQueues, `active, `history
      ensures Inv() && active == None && groups.Keys == old(groups).Keys
      ensures q in queues && queues == old(queues)[q := queues[q]]
      ensures var x := if timedOut then old(queues)[q].(resid := resid) else old(queues)[q];
              if index[q].sort == []
              then queues[q] == x.(onRr := false, tree := None, prioTree := false)
                   && busyQueues == old(busyQueues) - 1
              else Queued(x, queues[q], x.ioClass != IDLE && !clash) && busyQueues == old(busyQueues)
      ensures ServedGroup(old(groupTree), groupTree, old(queues)[q].cfqg, scaled, index[q].sort == [], events)
      ensures T.Moved(old(history), old(groupTree), old(Turn()), events, history, groupTree, Turn())
      ensures T.Plain(events, false)
    {
      hide RrInv, ActiveInv, RefInv, Pending, T.Leads, T.Plain, G.Charged, G.Take, G.TreeInv, StFor, TypeOf;
      ActiveQueueFacts(queues, index, active);
      RrOfQueue(queues, trees, groups, groupTree, busyQueues, busySyncQueues, q);
      ghost var qs := queues;
      ChargeSlice(q, timedOut, resid, scaled, now);
      ghost var x := queues[q];
      ghost var left := RetireOrRequeue(q, clash, now);
      Overwrite(qs, q, x, queues[q]);
      ActiveAfterExpiry(qs, index, q, queues[q]);
      active := None;
      events := [G.Serves(qs[q].cfqg, scaled)] + left;
      T.LeadsToSlice(old(groupTree), qs[q].cfqg, scaled, left, groupTree);
      assert old(history) + [G.Serves(qs[q].cfqg, scaled)] + left == old(history) + events;
    }

    // ---------- selection ----------

    /** cfq_choose_wl_type: the type whose first queue has the lowest key. */
    method ChooseWlType(g: nat, c: WlClass) returns (best: WlType)
      requires TreesInv(queues, trees, groups) && g in groups
      requires forall c, t :: StFor(g, c, t) in trees
      modifies `trees
      ensures TreesInv(queues, trees, groups) && SameNodes(old(trees), trees)
      ensures BusyInClass(old(trees), g, c) > 0 && c != IDLE ==> LowestKeyType(old(trees), g, c, best)
    {
      hide TreesInv, SameNodes;
      GroupTrees(queues, trees, groups, g);
      SameNodesRefl(trees);
      ghost var ts := trees;
      var types := [ASYNC, SYNC_NOIDLE, SYNC];
      var i, keyValid, lowestKey := 0, false, 0;
      best := SYNC_NOIDLE;
      while i < 3
        invariant 0 <= i <= 3
        invariant TreesInv(queues, trees, groups) && SameNodes(ts, trees)
        invariant keyValid ==> ts[StFor(g, c, best)].nodes != [] && lowestKey == ts[StFor(g, c, best)].nodes[0].key
        invariant i >= 1 ==> Considered(ts, g, c, ASYNC, keyValid, lowestKey)
        invariant i >= 2 ==> Considered(ts, g, c, SYNC_NOIDLE, keyValid, lowestKey)
        invariant i >= 3 ==> Considered(ts, g, c, SYNC, keyValid, lowestKey)
      {
        ghost var before := trees;
        var t := types[i];
        assert t == if i == 0 then ASYNC else if i == 1 then SYNC_NOIDLE else SYNC;
        NodesAt(ts, before, StFor(g, c, t));
        var q := RbFirst(StFor(g, c, t));
        SameNodesTrans(ts, before, trees);
        NodesAt(ts, trees, StFor(g, c, t));
        if q.Some? && (!keyValid || queues[q.value].rbKey < lowestKey) {
          lowestKey := queues[q.value].rbKey;
          best := t;
          keyValid := true;
        }
        i := i + 1;
      }
      LowestOfThree(ts, g, c, best, keyValid, lowestKey);
    }

    /** choose_wl_class_and_type: RT over BE over IDLE; keep the type while it has time and queues. */
    method ChooseWlClassAndType(g: nat, now: nat, wlSlice: nat)
      requires TreesInv(queues, trees, groups) && g in groups
      requires forall c, t :: StFor(g, c, t) in trees
      requires BusyInClass(trees, g, RT) + BusyInClass(trees, g, BE) + BusyInClass(trees, g, IDLE) > 0
      modifies `trees, `servingClass, `servingType, `workloadExpires
      ensures TreesInv(queues, trees, groups) && SameNodes(old(trees), trees)
      ensures forall c, t :: StFor(g, c, t) in trees
      ensures HighestClass(trees, g, servingClass)
      ensures trees[StFor(g, servingClass, servingType)].nodes != []
      ensures if servingClass == IDLE then servingType == old(servingType) && workloadExpires == now + wlSlice
              else if old(servingClass) != servingClass || now > old(workloadExpires)
                      || old(trees)[StFor(g, servingClass, old(servingType))].nodes == []
              then LowestKeyType(old(trees), g, servingClass, servingType) && workloadExpires == now + wlSlice
              else servingType == old(servingType) && workloadExpires == old(workloadExpires)
    {
      hide TreesInv;
      GroupTrees(queues, trees, groups, g);
      var originalClass := servingClass;
      if BusyInClass(trees, g, RT) != 0 {
        servingClass := RT;
      } else if BusyInClass(trees, g, BE) != 0 {
        servingClass := BE;
      } else {
        servingClass := IDLE;
        workloadExpires := now + wlSlice;
        return;
      }
      if originalClass == servingClass {
        var count := CountAt(trees, g, servingClass, servingType);
        if count != 0 && !(now > workloadExpires) {
          return;
        }
      }
      servingType := ChooseWlType(g, servingClass);
      SameNodesSameCounts(old(trees), trees, g, RT);
      SameNodesSameCounts(old(trees), trees, g, servingClass);
      // the divisor of the workload slice
      assert BusyInClass(trees, g, servingClass) > 0;
      workloadExpires := now + wlSlice;
    }

    /** cfq_choose_cfqg: the first group, with its saved workload restored. */
    method ChooseCfqg(now: nat, wlSlice: nat)
      requires Inv() && busyQueues > 0
      modifies `trees, `groupTree, `history, `servingGroup, `servingClass, `servingType, `workloadExpires
      ensures Inv() && groupTree == G.GetNext(old(groupTree)) && history == old(history) + [G.Raises]
      ensures TopTree(trees, groups, groupTree, servingGroup, servingClass, servingType)
      ensures Resumed(groups[servingGroup.value], now)
    {
      hide RrInv, TreesInv, ActiveInv, RefInv, Pending, HighestClass, ForestInv, BusyInClass, G.GetNext, Resumed;
      FirstGroupIsBusy(queues, trees, groups, groupTree, busyQueues, busySyncQueues);
      GetNextKeepsRr(queues, trees, groups, groupTree, busyQueues, busySyncQueues);
      RrTrees(queues, trees, groups, groupTree, busyQueues, busySyncQueues);
      ghost var ts := trees;
      groupTree := G.GetNext(groupTree);
      history := history + [G.Raises];
      // cfq_get_next_cfqg cannot return NULL here
      assert groupTree.nodes != [];
      var g := groupTree.nodes[0].id;
      servingGroup := Some(g);
      ResumeWorkload(g, now, wlSlice);
      SameNodesKeepRr(queues, ts, trees, groups, groupTree, busyQueues, busySyncQueues);
    }

    /**
     * If x was expired with time left, its class is the one chosen again and its type still has
     * queues, then it goes on with that type for the time that was left.
     */
    ghost predicate Resumed(x: Group, now: nat)
      reads this
    {
      x.savedSlice > 0 && servingGroup.Some? && servingClass == x.savedClass && servingClass != IDLE
      && StFor(servingGroup.value, servingClass, x.savedType) in trees
      && trees[StFor(servingGroup.value, servingClass, x.savedType)].nodes != [] ==>
        servingType == x.savedType && workloadExpires == now + x.savedSlice
    }

    /** The saved workload of the group is restored, and the class and type are chosen anew. */
    method ResumeWorkload(g: nat, now: nat, wlSlice: nat)
      requires TreesInv(queues, trees, groups) && g in groups && servingGroup == Some(g)
      requires forall c, t :: StFor(g, c, t) in trees
      requires BusyInClass(trees, g, RT) + BusyInClass(trees, g, BE) + BusyInClass(trees, g, IDLE) > 0
      modifies `trees, `servingClass, `servingType, `workloadExpires
      ensures TreesInv(queues, trees, groups) && SameNodes(old(trees), trees)
      ensures forall c, t :: StFor(g, c, t) in trees
      ensures HighestClass(trees, g, servingClass)
      ensures trees[StFor(g, servingClass, servingType)].nodes != []
      ensures Resumed(groups[g], now)
    {
      hide TreesInv, HighestClass, BusyInClass, LowestKeyType, SameNodes;
      ghost var ts := trees;
      RestoreWorkload(g, now);
      ChooseWlClassAndType(g, now, wlSlice);
      NodesAt(ts, trees, StFor(g, servingClass, groups[g].savedType));
    }

    /** A group that was expired with workload time left resumes that workload. */
    method RestoreWorkload(g: nat, now: nat)
      requires g in groups
      modifies `servingClass, `servingType, `workloadExpires
      ensures if groups[g].savedSlice != 0
              then servingClass == groups[g].savedClass && servingType == groups[g].savedType
                   && workloadExpires == now + groups[g].savedSlice
              else servingClass == old(servingClass) && servingType == old(servingType) && workloadExpires == now - 1
    {
      if groups[g].savedSlice != 0 {
        workloadExpires := now + groups[g].savedSlice;
        servingType := groups[g].savedType;
        servingClass := groups[g].savedClass;
      } else {
        workloadExpires := now - 1;
      }
    }

    /** BUG_ON(!st) and BUG_ON(!st->count) of cfq_should_idle, for the active queue. */
    method ShouldIdle(q: nat, answer: bool) returns (r: bool)
      requires Inv() && active == Some(q)
      ensures r == (answer && queues[q].ioClass != IDLE)
    {
      var st := queues[q].tree;
      assert st.Some?;
      assert LinkedAt(queues, trees, q, st.value) && RootInv(trees[st.value]);
      assert trees[st.value].count > 0;
      if queues[q].ioClass == IDLE {
        return false;
      }
      r := answer;
    }

    /**
     * The first half of cfq_select_queue: whether to go on with the active queue, wait, or
     * expire it (perhaps in favour of a close cooperator).  A deep-seeking queue that ran
     * empty loses its idle window on the way; nothing else changes.
     */
    method Decide(q: nat, a: Answers) returns (d: Decision)
      requires Inv() && active == Some(q) && q in queues && q in index
      modifies `queues
      ensures Inv()
      ensures queues == if Deepens(a, rqQueued, index[q].sort == [])
                        then old(queues)[q := old(queues)[q].(idleWindow := false)] else old(queues)
      ensures d == Keep ==> index[q].sort != []
      ensures d.Expire? ==> rqQueued > 0 && (d.next.Some? ==> d.next == a.coop && queues == old(queues))
      ensures d == Wait ==> rqQueued == 0 || a.timerActive || (a.inFlight && a.shouldIdle) || a.groupIdle
      ensures d == Wait && index[q].sort != [] ==> a.sliceUsed && !a.mustDispatch && a.groupIdle
      ensures index[q].sort != [] && !a.waitBusy && !a.sliceUsed ==> d == Keep
    {
      hide RrInv, ActiveInv, RefInv, Pending;
      RrOfQueue(queues, trees, groups, groupTree, busyQueues, busySyncQueues, q);
      PendingMember(index, q);
      var empty := index[q].sort == [];
      var alone := groups[queues[q].cfqg].nrCfqq == 1;
      if rqQueued == 0 {
        d := Wait;
      } else if a.waitBusy && !empty {
        d := Expire(None);
      } else if a.sliceUsed && !a.mustDispatch {
        d := IdleOrExpire(q, alone && empty && a.inFlight, a.shouldIdle, a.groupIdle && alone);
      } else if !empty {
        d := Keep;
      } else if a.coop.Some? {
        d := Expire(a.coop);
      } else if a.timerActive {
        d := Wait;
      } else {
        ForgetIdleWindow(q, a.deepSeek);
        d := IdleOrExpire(q, a.inFlight, a.shouldIdle, a.groupIdle && alone);
      }
    }

    /** Wait for requests in flight if that pays, or for the group; otherwise expire. */
    method IdleOrExpire(q: nat, inFlight: bool, shouldIdle: bool, groupIdle: bool) returns (d: Decision)
      requires Inv() && active == Some(q)
      ensures d == Wait || d == Expire(None)
      ensures d == Wait ==> (inFlight && shouldIdle) || groupIdle
    {
      hide RrInv, ActiveInv, RefInv, Pending;
      var idle := false;
      if inFlight {
        idle := ShouldIdle(q, shouldIdle);
      }
      d := if idle || groupIdle then Wait else Expire(None);
    }

    /** A queue that seeks deeply on a fast device is not worth idling for. */
    method ForgetIdleWindow(q: nat, deepSeek: bool)
      requires Inv() && q in queues
      modifies `queues
      ensures Inv()
      ensures queues == if deepSeek then old(queues)[q := old(queues)[q].(idleWindow := false)] else old(queues)
    {
      hide RrInv, ActiveInv, RefInv, Pending;
      if deepSeek && queues[q].idleWindow {
        Reclassify(q, queues[q].ioClass, queues[q].ioprio, false);
      }
    }

    /** cfq_choose_cfqg followed by cfq_get_next_queue. */
    method TopQueue(now: nat, wlSlice: nat) returns (q: nat)
      requires Inv() && busyQueues > 0 && rqQueued > 0
      modifies `trees, `groupTree, `history, `servingGroup, `servingClass, `servingType, `workloadExpires
      ensures Inv() && q in queues && queues[q].onRr && groupTree == G.GetNext(old(groupTree))
      ensures history == old(history) + [G.Raises] && old(groupTree).nodes != []
      ensures TopOfSchedule(trees, groups, groupTree, servingGroup, servingClass, servingType, q)
      ensures G.IsFirst(groupTree, queues[q].cfqg)
    {
      hide RrInv, ActiveInv, RefInv, Pending, TopTree, ForestInv, RI.Inv;
      ChooseCfqg(now, wlSlice);
      ghost var ts := trees;
      TopTreeGroup(trees, groups, groupTree, servingGroup, servingClass, servingType);
      var cfqq := GetNextQueue();
      SameNodesSameTop(ts, trees, groups, groupTree, servingGroup, servingClass, servingType);
      // cfq_get_next_queue cannot return NULL here
      assert cfqq.Some?;
      q := cfqq.value;
      TopQueueGroup(queues, trees, groups, groupTree, busyQueues, busySyncQueues,
                    StFor(servingGroup.value, servingClass, servingType), q);
    }

    /** The second half, with no queue active: activate `next`, or the top of the schedule. */
    method SelectNew(next: Option<nat>, now: nat, wlSlice: nat)
      returns (r: nat, ghost events: seq<G.Event>)
      requires Inv() && active == None && busyQueues > 0
      requires next.Some? ==> next.value in queues && queues[next.value].onRr
      modifies `trees, `groupTree, `active, `history, `servingGroup, `servingClass, `servingType, `workloadExpires
      ensures Inv() && active == Some(r) && r in index && index[r].sort != [] && r in queues
      ensures history == old(history) + events
      ensures next.Some? ==>
                r == next.value && groupTree == old(groupTree) && events == [G.Activates(queues[r].cfqg, true)]
      ensures next.None? ==>
                && groupTree == G.GetNext(old(groupTree)) && G.IsFirst(groupTree, queues[r].cfqg)
                && old(groupTree).nodes != [] && events == [G.Raises, G.Activates(queues[r].cfqg, false)]
      ensures next.None? ==> TopOfSchedule(trees, groups, groupTree, servingGroup, servingClass, servingType, r)
    {
      hide RrInv, ActiveInv, RefInv, Pending, TopOfSchedule, RI.Inv, G.GetNext, G.IsFirst;
      BusyIffPending(queues, trees, groups, groupTree, busyQueues, busySyncQueues, index);
      if next.None? {
        r := TopQueue(now, wlSlice);
      } else {
        r := next.value;
      }
      ActivateKeepsActive(queues, index, r);
      SetActiveQueue(r, next.Some?);
      events := (if next.None? then [G.Raises] else []) + [G.Activates(queues[r].cfqg, next.Some?)];
    }

    /**
     * cfq_select_queue.  It returns NULL and waits without touching anything, or it makes
     * a queue with a pending request active: the current one, a close cooperator, or
     * (`chosen`) the first queue of the highest busy class of the first group.  A cooperator
     * leaves its group first if and only if that had a lead larger than its charge.
     */
    method SelectQueue(a: Answers, now: nat)
      returns (r: Option<nat>, chosen: bool, ghost events: seq<G.Event>)
      requires Inv() && busyQueues > 0
      requires active.Some? ==> active.value in queues
      requires active.Some? && a.coop.Some? ==> CooperatorOf(queues, active.value, a.coop.value)
      modifies `queues, `trees, `groups, `groupTree, `busyQueues, `busySyncQueues, `active, `history,
               `servingGroup, `servingClass, `servingType, `workloadExpires
      ensures Inv() && groups.Keys == old(groups).Keys
      ensures r.Some? ==> active == r && r.value in index && index[r.value].sort != []
      ensures r.None? ==> active == old(active) && active.Some? && groupTree == old(groupTree)
                          && OnlyIdleWindow(old(queues), queues, active.value, a.deepSeek)
      ensures chosen ==>
                r.Some? && TopOfSchedule(trees, groups, groupTree, servingGroup, servingClass, servingType, r.value)
      ensures r.Some? && !chosen ==> r == old(active) || r == a.coop
      ensures chosen || (old(OnTop()) && (r.None? || r == old(active))) ==> OnTop()
      ensures r.Some? && !chosen && r != old(active) && old(OnTop()) ==>
                (OnTop() <==> T.Leading(old(groupTree), a.scaled))
      ensures T.Moved(old(history), old(groupTree), old(Turn()), events, history, groupTree, Turn())
      ensures T.Plain(events, r.Some? && !chosen && r != old(active))
    {
      hide RrInv, ActiveInv, RefInv, Pending, CooperatorOf, TopOfSchedule, ServedGroup, Queued, StFor, TypeOf,
           T.Leads, T.Plain, T.Leading;
      T.MovedNowhere(history, groupTree, Turn());
      T.PlainOnly([], true);
      if active.None? {
        T.LeadsToFirst(groupTree, T.Free) by {
          FirstGroupIsBusy(queues, trees, groups, groupTree, busyQueues, busySyncQueues);
        }
        var q;
        q, events := SelectNew(None, now, a.wlSlice);
        return Some(q), true, events;
      }
      var q := active.value;
      ActiveQueueFacts(queues, index, active);
      var d := Decide(q, a);
      match d {
        case Wait => return None, false, [];
        case Keep => return Some(q), false, [];
        case Expire(next) =>
          var p;
          p, events := ExpireAndSelect(q, next, a, now);
          r, chosen := Some(p), next.None?;
      }
    }

    /** The active queue is expired; a cooperator or the top of the schedule takes over. */
    method ExpireAndSelect(q: nat, next: Option<nat>, a: Answers, now: nat)
      returns (r: nat, ghost events: seq<G.Event>)
      requires Inv() && rqQueued > 0 && active == Some(q) && q in queues && q in index
      requires next.Some? ==> CooperatorOf(queues, q, next.value)
      modifies `queues, `trees, `groups, `groupTree, `busyQueues, `busySyncQueues, `active, `history,
               `servingGroup, `servingClass, `servingType, `workloadExpires
      ensures Inv() && groups.Keys == old(groups).Keys
      ensures active == Some(r) && r in index && index[r].sort != []
      ensures next.None? ==>
                TopOfSchedule(trees, groups, groupTree, servingGroup, servingClass, servingType, r) && OnTop()
      ensures next.Some? ==> next == Some(r) && r != q
      ensures next.Some? && old(OnTop()) ==> (OnTop() <==> T.Leading(old(groupTree), a.scaled))
      ensures T.Moved(old(history), old(groupTree), old(Turn()), events, history, groupTree, Turn())
      ensures T.Plain(events, next.Some?)
    {
      hide RrInv, ActiveInv, RefInv, Pending, TopOfSchedule, Queued, StFor, TypeOf, ServedGroup, T.Leads, T.Plain,
           T.Leading;
      ghost var gt, g, past, qs := groupTree, queues[q].cfqg, history, queues;
      GroupTimes(queues, trees, groups, groupTree, busyQueues, busySyncQueues);
      ghost var slice := SliceExpired(q, false, 0, a.scaled, a.clash, now);
      BusyIffPending(queues, trees, groups, groupTree, busyQueues, busySyncQueues, index);
      ghost var mid, h := groupTree, history;
      if next.Some? {
        CooperatorReady(qs, queues, index, q, next.value);
        StaysForCooperator(queues, trees, groups, gt, groupTree, busyQueues, busySyncQueues, g, a.scaled,
                           index[q].sort == [], slice, next.value);
      } else {
        FirstGroupIsBusy(queues, trees, groups, groupTree, busyQueues, busySyncQueues);
        T.LeadsToFirst(groupTree, T.Free);
      }
      ghost var more;
      r, more := SelectNew(next, now, a.wlSlice);
      events := slice + more;
      if next.None? {
        T.MovedFurther(past, gt, T.Held(g), slice, h, mid, T.Free, more, history, groupTree, Turn());
        T.PlainFurther(slice, more, false);
      } else {
        assert past + slice + more == past + events;
      }
    }

    /** cfq_get_next_queue: the first queue of the serving tree. */
    method GetNextQueue() returns (r: Option<nat>)
      requires Inv() && servingGroup.Some? && servingGroup.value in groups
      modifies `trees
      ensures Inv() && SameNodes(old(trees), trees)
      ensures ForestInv(trees, groups)
      ensures var st := trees[StFor(servingGroup.value, servingClass, servingType)];
              r == if rqQueued == 0 || st.nodes == [] then None else Some(st.nodes[0].id)
      ensures r.Some? ==> r.value in queues && queues[r.value].onRr
    {
      hide RrInv, TreesInv, ForestInv, SameNodes, ActiveInv, RefInv, Pending;
      RrTrees(queues, trees, groups, groupTree, busyQueues, busySyncQueues);
      GroupTrees(queues, trees, groups, servingGroup.value);
      SameNodesKeepRr(queues, trees, trees, groups, groupTree, busyQueues, busySyncQueues);
      SameNodesRefl(trees);
      if rqQueued == 0 {
        return None;
      }
      var st := StFor(servingGroup.value, servingClass, servingType);
      if trees[st].nodes == [] {
        return None;
      }
      ghost var ts := trees;
      r := RbFirst(st);
      SameNodesKeepRr(queues, ts, trees, groups, groupTree, busyQueues, busySyncQueues);
      RrOfQueue(queues, trees, groups, groupTree, busyQueues, busySyncQueues, r.value);
    }

    // ---------- requests ----------

    /** cfq_del_rq_rb's last step: an emptied busy queue leaves the priority tree. */
    method LeavePrioTreeIfEmpty(q: nat)
      requires q in queues && q in index
      modifies `queues
      ensures queues == old(queues)[q := old(queues)[q].(prioTree :=
                old(queues)[q].prioTree && !(old(queues)[q].onRr && index[q].sort == []))]
    {
      if queues[q].onRr && index[q].sort == [] {
        queues := queues[q := queues[q].(prioTree := false)];
      }
    }

    /** cfq_dispatch_insert of a request of the active queue. */
    method DispatchInsert(q: nat, rq: Request)
      requires Inv() && active == Some(q) && q in queues && q in index && rq in index[q].sort
      modifies `queues, `index, `rqQueued, queue
      ensures Inv() && rqQueued == old(rqQueued) - 1
      ensures index == old(index)[q := RI.DispatchRemove(tunables, old(index)[q], rq)]
      ensures |index[q].sort| == |old(index)[q].sort| - 1
      ensures rq in Pending(old(index)) && Pending(index) == Pending(old(index)) - multiset{rq}
      ensures q in queues && queues == old(queues)[q := old(queues)[q].(prioTree := queues[q].prioTree)]
      ensures queue.queueHead == DispatchSorted(old(queue.queueHead), rq, old(queue.endSector))
      ensures queue.nrSorted == old(queue.nrSorted) - 1 && queue.endSector == old(queue.endSector)
    {
      hide RrInv, ActiveInv, RefInv, Pending, RI.Inv, RI.DispatchRemove, DispatchSorted;
      ActiveQueueFacts(queues, index, active);
      CountedListed(index[q]);
      RI.StillQueued(index[q], rq);
      assert RI.Queued(index[q], rq.sync) != 0;
      ghost var qs, x := queues, RI.DispatchRemove(tunables, index[q], rq);
      DispatchFacts(tunables, index[q], rq);
      index := index[q := RI.DispatchRemove(tunables, index[q], rq)];
      LeavePrioTreeIfEmpty(q);
      TakeKeeps(qs, trees, groups, groupTree, busyQueues, busySyncQueues, old(index), refs, active,
                q, x, rq, queues[q].prioTree);
      rqQueued := rqQueued - 1;
      queue.DispatchSort(rq);
    }

    /** cfq_merged_request after a front merge. */
    method MergedRequest(q: nat, rq: Request, moved: Request, clash: bool)
      requires Inv() && q in queues && q in index && rq in index[q].sort
      requires moved.id == rq.id && moved.sync == rq.sync
      modifies `queues, `index
      ensures Inv()
      ensures index == old(index)[q := RI.Reposition(tunables, old(index)[q], rq, moved, lastPosition)]
      ensures rq in Pending(old(index)) && Pending(index) == Pending(old(index)) - multiset{rq} + multiset{moved}
      ensures q in queues && queues == old(queues)[q := old(queues)[q].(prioTree := queues[q].prioTree)]
    {
      hide RrInv, ActiveInv, RefInv, Pending, RI.Inv, RI.Reposition;
      ghost var qs, x := queues, RI.Reposition(tunables, index[q], rq, moved, lastPosition);
      RepositionFacts(tunables, queues, index, active, q, rq, moved, lastPosition);
      var prev := if index[q].next == Some(rq) then Some(moved) else index[q].next;
      index := index[q := RI.Reposition(tunables, index[q], rq, moved, lastPosition)];
      if prev != index[q].next {
        PrioTreeAdd(q, clash);
      }
      assert queues == qs[q := qs[q].(prioTree := queues[q].prioTree)];
      MoveKeeps(qs, trees, groups, groupTree, busyQueues, busySyncQueues, old(index), refs, active,
                q, x, rq, moved, queues[q].prioTree);
      assert index[q].next.Some?;
    }

    /** The queue index after `next` was merged into `rq`, whichever queue that is in. */
    ghost function MergedIndex(x: RI.Index, rq: Request, nx: Request): RI.Index
      requires RI.Inv(x) && nx in x.sort && rq != nx
    {
      if rq in x.sort then RI.MergedRequests(tunables, x, rq, nx) else RI.RemoveRequest(tunables, x, nx)
    }

    /** Install the index without `nx`; an emptied queue that is not active stops being busy. */
    method TakeMerged(q: nat, x: RI.Index, nx: Request) returns (ghost events: seq<G.Event>)
      requires Inv() && q in queues && q in index && nx in index[q].sort && RI.Inv(x)
      requires multiset(x.sort) == multiset(index[q].sort) - multiset{nx} && |x.sort| == |index[q].sort| - 1
      modifies `queues, `trees, `groups, `groupTree, `history, `busyQueues, `busySyncQueues, `index, `rqQueued
      ensures Inv() && rqQueued == old(rqQueued) - 1 && groups.Keys == old(groups).Keys
      ensures index == old(index)[q := x]
      ensures nx in Pending(old(index)) && Pending(index) == Pending(old(index)) - multiset{nx}
      ensures q in queues && (queues[q].onRr <==> x.sort != [] || active == Some(q))
      ensures forall p :: p in queues && p != q ==> queues[p] == old(queues)[p]
      ensures T.Moved(old(history), old(groupTree), old(Turn()), events, history, groupTree, Turn())
      ensures T.Plain(events, false)
    {
      hide RrInv, ActiveInv, RefInv, Pending, RI.Inv, T.Leads, T.Plain;
      events := [];
      T.MovedNowhere(history, groupTree, Turn());
      ForgetRequest(q, x, nx);
      ghost var y := queues[q];
      if queues[q].onRr && index[q].sort == [] && active != Some(q) {
        ghost var z := y.(onRr := false, tree := None, prioTree := false);
        Overwrite(old(queues), q, y, z);
        RetireKeeps(old(queues), old(index), active, q, z, x);
        events := RetireEmptied(q);
      }
    }

    /** A queue other than the active one that was left without requests stops being busy. */
    method RetireEmptied(q: nat) returns (ghost events: seq<G.Event>)
      requires RrInv(queues, trees, groups, groupTree, busyQueues, busySyncQueues)
      requires q in queues && q in index && queues[q].onRr && active != Some(q)
      requires var y := queues[q].(onRr := false, tree := None, prioTree := false);
               ActiveInv(queues[q := y], index, active)
      modifies `queues, `trees, `groups, `groupTree, `history, `busyQueues, `busySyncQueues
      ensures RrInv(queues, trees, groups, groupTree, busyQueues, busySyncQueues) && ActiveInv(queues, index, active)
      ensures groups.Keys == old(groups).Keys
      ensures queues == old(queues)[q := old(queues)[q].(onRr := false, tree := None, prioTree := false)]
      ensures T.Moved(old(history), old(groupTree), old(Turn()), events, history, groupTree, Turn())
      ensures T.Plain(events, false)
    {
      hide RrInv, ActiveInv, T.Leads, T.Plain;
      ghost var gt, g := groupTree, queues[q].cfqg;
      GroupTimes(queues, trees, groups, gt, busyQueues, busySyncQueues);
      events := DelCfqqRr(q);
      OthersLeave(queues, trees, groups, gt, groupTree, busyQueues, busySyncQueues, index, active, g, events);
      T.LeadsToLeave(gt, g, events, groupTree, Turn());
    }

    /** The index and the counts let go of nx; an emptied queue is still busy. */
    method ForgetRequest(q: nat, x: RI.Index, nx: Request)
      requires Inv() && q in queues && q in index && nx in index[q].sort && RI.Inv(x)
      requires multiset(x.sort) == multiset(index[q].sort) - multiset{nx} && |x.sort| == |index[q].sort| - 1
      modifies `queues, `index, `rqQueued
      ensures RrInv(queues, trees, groups, groupTree, busyQueues, busySyncQueues) && RefInv(index, refs)
      ensures active == Some(q) || x.sort != [] ==> ActiveInv(queues, index, active)
      ensures index == old(index)[q := x] && rqQueued == old(rqQueued) - 1 == |Pending(index)|
      ensures nx in Pending(old(index)) && Pending(index) == Pending(old(index)) - multiset{nx}
      ensures q in queues && queues[q].onRr
      ensures queues == old(queues)[q := old(queues)[q].(prioTree := queues[q].prioTree)]
    {
      hide RrInv, ActiveInv, RefInv, Pending, RI.Inv;
      BusyWithRequests(queues, index, active, q);
      index := index[q := x];
      LeavePrioTreeIfEmpty(q);
      TakeKeeps(old(queues), trees, groups, groupTree, busyQueues, busySyncQueues, old(index), refs, active,
                q, x, nx, queues[q].prioTree);
      rqQueued := rqQueued - 1;
    }

    /** cfq_merged_requests: `nx` of queue q is absorbed by `rq`, of this or another queue. */
    method MergedRequests(q: nat, rq: Request, nx: Request) returns (ghost events: seq<G.Event>)
      requires Inv() && q in queues && q in index && RI.Inv(index[q]) && nx in index[q].sort && rq != nx
      modifies `queues, `trees, `groups, `groupTree, `history, `busyQueues, `busySyncQueues, `index, `rqQueued
      ensures Inv() && rqQueued == old(rqQueued) - 1 && groups.Keys == old(groups).Keys
      ensures index == old(index)[q := MergedIndex(old(index)[q], rq, nx)]
      ensures nx in Pending(old(index)) && Pending(index) == Pending(old(index)) - multiset{nx}
      ensures q in queues && (queues[q].onRr <==> index[q].sort != [] || active == Some(q))
      ensures forall p :: p in queues && p != q ==> queues[p] == old(queues)[p]
      ensures T.Moved(old(history), old(groupTree), old(Turn()), events, history, groupTree, Turn())
      ensures T.Plain(events, false)
    {
      hide RrInv, ActiveInv, RefInv, Pending, RI.Inv, RI.MergedRequests, RI.RemoveRequest, T.Leads, T.Plain;
      var x := index[q];
      CountedListed(x);
      RI.StillQueued(x, nx);
      assert RI.Queued(x, nx.sync) != 0;
      if rq in x.sort {
        MergeFacts(tunables, x, rq, nx);
        x := RI.MergedRequests(tunables, x, rq, nx);
      } else {
        RemoveFacts(tunables, x, nx);
        x := RI.RemoveRequest(tunables, x, nx);
      }
      events := TakeMerged(q, x, nx);
    }

    /** cfq_add_rq_rb with cfq_insert_request's stamping: the queue becomes busy. */
    method AddRqRb(q: nat, rq: Request, expires: nat, clash: bool, now: nat)
      returns (ghost events: seq<G.Event>)
      requires Inv() && q in queues && q in index && q in refs
      requires !HasId(index[q].sort, rq.id) && |index[q].sort| < refs[q].requests
      modifies `queues, `trees, `groups, `groupTree, `history, `busyQueues, `busySyncQueues, `index
      ensures RrInv(queues, trees, groups, groupTree, busyQueues, busySyncQueues)
      ensures ActiveInv(queues, index, active) && RefInv(index, refs)
      ensures index == old(index)[q := RI.InsertRequest(tunables, old(index)[q], rq, expires, lastPosition)]
      ensures Pending(index) == Pending(old(index)) + multiset{rq} && |Pending(index)| == rqQueued + 1
      ensures q in queues && queues == old(queues)[q := queues[q]] && queues[q].onRr
      ensures SameKind(queues[q], old(queues)[q])
      ensures T.Moved(old(history), old(groupTree), old(Turn()), events, history, groupTree, Turn())
      ensures |events| <= 1 && (events != [] ==> events[0].Joins?)
    {
      hide RrInv, ActiveInv, RefInv, Pending, RI.Inv, Insert, ChooseReq, HasId, Queued, T.Leads, TypeOf, StFor;
      ghost var qs, ix := queues, index;
      InsertFacts(tunables, queues, index, active, q, rq, expires, lastPosition);
      var x := index[q];
      x := RI.AddCount(x.(fifo := x.fifo + [rq], fifoTime := x.fifoTime[rq.id := expires]), rq.sync, 1)
             .(sort := Insert(PosOf, x.sort, rq));
      index := index[q := x];
      events := MakeBusy(q, clash, now);
      ghost var y := queues[q];
      assert queues == qs[q := y];
      ChooseNext(q, rq, clash);
      assert index == ix[q := RI.InsertRequest(tunables, ix[q], rq, expires, lastPosition)];
      Overwrite(qs, q, y, queues[q]);
      ArriveKeeps(qs, queues, ix, refs, active, q, index[q], rq);
      assert index[q].next.Some?;
    }

    /** The next request of q is the new one if that is better; q may change its place on the priority tree. */
    method ChooseNext(q: nat, rq: Request, clash: bool)
      requires RrInv(queues, trees, groups, groupTree, busyQueues, busySyncQueues) && q in queues && q in index
      modifies `queues, `index
      ensures RrInv(queues, trees, groups, groupTree, busyQueues, busySyncQueues)
      ensures var x := old(index)[q];
              index == old(index)[q := x.(next := ChooseReq(tunables, x.next, Some(rq), lastPosition))]
      ensures q in queues && queues == old(queues)[q := old(queues)[q].(prioTree := queues[q].prioTree)]
    {
      hide RrInv, ChooseReq;
      var prev := index[q].next;
      index := index[q := index[q].(next := ChooseReq(tunables, prev, Some(rq), lastPosition))];
      if prev != index[q].next {
        ProtectedPrioTreeAdd(q, clash);
      }
    }

    /** A queue that gets its first request joins the round robin, and perhaps its group the group tree. */
    method MakeBusy(q: nat, clash: bool, now: nat) returns (ghost events: seq<G.Event>)
      requires RrInv(queues, trees, groups, groupTree, busyQueues, busySyncQueues) && q in queues && q in index
      modifies `queues, `trees, `groups, `groupTree, `history, `busyQueues, `busySyncQueues
      ensures RrInv(queues, trees, groups, groupTree, busyQueues, busySyncQueues)
      ensures q in queues && queues == old(queues)[q := queues[q]] && queues[q].onRr
      ensures if old(queues)[q].onRr then queues == old(queues)
              else Queued(old(queues)[q], queues[q], old(queues)[q].ioClass != IDLE && index[q].next.Some? && !clash)
      ensures SameKind(queues[q], old(queues)[q])
      ensures T.Moved(old(history), old(groupTree), old(Turn()), events, history, groupTree, Turn())
      ensures |events| <= 1 && (events != [] ==> events[0].Joins?)
    {
      hide RrInv, T.Leads, G.TreeInv, G.Step, StFor, TypeOf;
      ghost var gt, g := groupTree, queues[q].cfqg;
      events := [];
      T.MovedNowhere(history, gt, Turn());
      if !queues[q].onRr {
        T.LeadsToJoin(gt, g, Turn());
        events := T.JoinOf(gt, g);
        AddCfqqRr(q, clash, now);
      }
    }

    /** A change of priority tree touches none of the round-robin counts. */
    method ProtectedPrioTreeAdd(q: nat, clash: bool)
      requires RrInv(queues, trees, groups, groupTree, busyQueues, busySyncQueues) && q in queues && q in index
      modifies `queues
      ensures RrInv(queues, trees, groups, groupTree, busyQueues, busySyncQueues)
      ensures queues == old(queues)[q := old(queues)[q].(prioTree :=
                old(queues)[q].ioClass != IDLE && index[q].next.Some? && !clash)]
    {
      hide RrInv;
      RrFields(queues, trees, groups, groupTree, busyQueues, busySyncQueues, q, queues[q].(prioTree :=
        queues[q].ioClass != IDLE && index[q].next.Some? && !clash));
      PrioTreeAdd(q, clash);
    }

    /** cfq_init_prio_data and the idle-window update: the queue's kind may change any time. */
    method Reclassify(q: nat, ioClass: WlClass, ioprio: nat, idleWindow: bool)
      requires Inv() && q in queues
      modifies `queues
      ensures Inv()
      ensures queues ==
              old(queues)[q := old(queues)[q].(ioClass := ioClass, ioprio := ioprio, idleWindow := idleWindow)]
    {
      hide RrInv, ActiveInv, RefInv, Pending;
      var x := queues[q].(ioClass := ioClass, ioprio := ioprio, idleWindow := idleWindow);
      ReclassifyKeeps(queues, trees, groups, groupTree, busyQueues, busySyncQueues, index, active, q, x);
      queues := queues[q := x];
    }

    /** cfq_preempt_queue: the active queue gives way and q goes to the front of its tree. */
    method PreemptQueue(q: nat, resid: int, scaled: nat, clash: bool, now: nat)
      returns (ghost events: seq<G.Event>)
      requires Inv() && active.Some? && active != Some(q) && active.value in queues && active.value in index
      requires q in queues && q in index && index[q].sort != []
      modifies `queues, `trees, `groups, `groupTree, `history, `busyQueues, `busySyncQueues, `active
      ensures Inv() && active == None && groups.Keys == old(groups).Keys
      ensures q in queues && queues[q].onRr && queues[q].tree == Some(StOf(old(queues)[q]))
      ensures FrontPlace(trees, StOf(old(queues)[q]), old(queues)[q], q)
      ensures old(queues)[q].cfqg in groups
      ensures TypeOf(old(queues)[old(active).value]) != TypeOf(old(queues)[q]) ==>
                groups[old(queues)[q].cfqg].savedSlice == 0
      ensures T.Moved(old(history), old(groupTree), old(Turn()), events, history, groupTree, Turn())
      ensures T.Plain(events, false)
    {
      hide RrInv, ActiveInv, RefInv, Pending, ServedGroup, StFor, TypeOf, FrontPlace, T.Leads, T.Plain;
      var p := active.value;
      var oldType := TypeOf(queues[p]);
      events := SliceExpired(p, true, resid, scaled, clash, now);
      RrOfQueue(queues, trees, groups, groupTree, busyQueues, busySyncQueues, q);
      if oldType != TypeOf(queues[q]) {
        ForgetWorkload(queues[q].cfqg);
      }
      BusyWithRequests(queues, index, active, q);
      assert queues[q].onRr;
      MoveToFront(q, now);
    }

    /** saved_wl_slice = 0. */
    method ForgetWorkload(g: nat)
      requires Inv() && g in groups
      modifies `groups
      ensures Inv() && groups == old(groups)[g := old(groups)[g].(savedSlice := 0)]
    {
      hide RrInv, ActiveInv, RefInv, Pending;
      GroupFieldsKeepRr(queues, trees, groups, groupTree, busyQueues, busySyncQueues, g, groups[g].(savedSlice := 0));
      groups := groups[g := groups[g].(savedSlice := 0)];
    }

    /** cfq_service_tree_add(cfqq, 1) on a busy queue: first, if its tree's first key allows. */
    method MoveToFront(q: nat, now: nat)
      requires Inv() && active == None && q in queues && q in index && queues[q].onRr
      modifies `queues, `trees, `groups, `groupTree, `history
      ensures Inv() && groups == old(groups) && groupTree == old(groupTree) && history == old(history)
      ensures q in queues && queues == old(queues)[q := queues[q]]
      ensures queues[q].onRr && queues[q].tree == Some(StOf(old(queues)[q]))
      ensures FrontPlace(trees, StOf(old(queues)[q]), old(queues)[q], q)
    {
      hide RrInv, TreesInv, ActiveInv, RefInv, Pending, ServiceKey, TypeOf, FrontPlace, Requeued;
      RrOfQueue(queues, trees, groups, groupTree, busyQueues, busySyncQueues, q);
      RrTrees(queues, trees, groups, groupTree, busyQueues, busySyncQueues);
      ghost var qs, ts := queues, trees;
      ServiceTreeAdd(q, true, now);
      FrontFacts(qs, ts, groups, q, groups[StOf(qs[q]).g].nrCfqq, now, sliceSync, sliceAsync, trees);
      RequeuedKeeps(qs, ts, trees, groups, groupTree, busyQueues, busySyncQueues, index, q, queues[q]);
    }

    /** cfq_slice_expired: nothing to do without an active queue (timer, completion, exit). */
    method SliceExpiredIfActive(timedOut: bool, resid: int, scaled: nat, clash: bool, now: nat)
      returns (ghost events: seq<G.Event>)
      requires Inv()
      modifies `queues, `trees, `groups, `groupTree, `history, `busyQueues, `busySyncQueues, `active
      ensures Inv() && active == None && groups.Keys == old(groups).Keys && queues.Keys == old(queues).Keys
      ensures forall p :: p in queues && Some(p) != old(active) ==> queues[p] == old(queues)[p]
      ensures forall p :: p in queues && p in index ==> (queues[p].onRr <==> index[p].sort != [])
      ensures T.Moved(old(history), old(groupTree), old(Turn()), events, history, groupTree, Turn())
      ensures T.Plain(events, false)
      ensures if old(active).None? then events == []
              else old(active).value in old(queues) && events != []
                   && events[0] == G.Serves(old(queues)[old(active).value].cfqg, scaled)
    {
      hide RrInv, RefInv, Pending, Queued, T.Leads, T.Plain, T.LeftOrNot, G.OnTree, G.Charged, TypeOf, StFor, RI.Inv;
      events := [];
      T.MovedNowhere(history, groupTree, Turn());
      if active.Some? {
        ActiveQueueFacts(queues, index, active);
        events := SliceExpired(active.value, timedOut, resid, scaled, clash, now);
      }
    }

    /** cfq_activate_request's part: where the head will be. */
    method ActivateRequest(rq: Request)
      requires Inv()
      modifies `lastPosition
      ensures Inv() && lastPosition == rq.pos + rq.sectors
    {
      lastPosition := rq.pos + rq.sectors;
    }

    /**
     * cfq_insert_request.  rq was allocated to q and is not queued.  Afterwards rq is
     * pending and q is busy; the active queue may have been preempted.
     */
    method InsertRequest(q: nat, rq: Request, expires: nat, kind: Queue, clash: bool,
                         a: PreemptAnswers, resid: int, scaled: nat, now: nat)
      returns (ghost events: seq<G.Event>)
      requires Inv() && (active.Some? ==> active.value in queues && active.value in index)
      requires q in queues && q in index && q in refs
      requires !HasId(index[q].sort, rq.id) && |index[q].sort| < refs[q].requests
      modifies `queues, `trees, `groups, `groupTree, `history, `busyQueues, `busySyncQueues, `index, `rqQueued, `active
      ensures Inv() && rqQueued == old(rqQueued) + 1
      ensures index == old(index)[q := RI.InsertRequest(tunables, old(index)[q], rq, expires, lastPosition)]
      ensures Pending(index) == Pending(old(index)) + multiset{rq}
      ensures q in queues && queues[q].onRr && index[q].sort != []
      ensures active == if old(active).Some? && old(active) != Some(q)
                           && Preempts(old(queues)[old(active).value], old(index)[old(active).value].sort == [],
                                       Updated(old(queues)[q], kind), rq, servingType, a)
                        then None else old(active)
      ensures T.Moved(old(history), old(groupTree), old(Turn()), events, history, groupTree, Turn())
      ensures T.JoinThenPlain(events)
    {
      hide RrInv, ActiveInv, RefInv, Pending, RI.Inv, HasId, FrontPlace, StFor, TypeOf, RI.InsertRequest,
           T.Leads, T.Plain, Preempts, SameKind;
      ghost var past, gt, turn := history, groupTree, Turn();
      events := Enqueue(q, rq, expires, kind, clash, now);
      ghost var mid, h, t := history, groupTree, Turn();
      if active.Some? {
        SameKindPreempts(queues[active.value], index[active.value].sort == [], queues[q],
                         Updated(old(queues)[q], kind), rq, servingType, a);
      }
      ghost var last := MayPreempt(q, rq, a, resid, scaled, clash, now);
      T.MovedFurther(past, gt, turn, events, mid, h, t, last, history, groupTree, Turn());
      T.JoinThenFurther(events, last);
      events := events + last;
    }

    /** Its part before that: the request joins its queue, whose kind is brought up to date. */
    method Enqueue(q: nat, rq: Request, expires: nat, kind: Queue, clash: bool, now: nat)
      returns (ghost events: seq<G.Event>)
      requires Inv() && q in queues && q in index && q in refs
      requires !HasId(index[q].sort, rq.id) && |index[q].sort| < refs[q].requests
      modifies `queues, `trees, `groups, `groupTree, `history, `busyQueues, `busySyncQueues, `index, `rqQueued
      ensures Inv() && rqQueued == old(rqQueued) + 1
      ensures index == old(index)[q := RI.InsertRequest(tunables, old(index)[q], rq, expires, lastPosition)]
      ensures Pending(index) == Pending(old(index)) + multiset{rq}
      ensures q in queues && index[q].sort != [] && queues.Keys == old(queues).Keys
      ensures forall p :: p in queues && p != q ==> queues[p] == old(queues)[p]
      ensures SameKind(queues[q], Updated(old(queues)[q], kind))
      ensures T.Moved(old(history), old(groupTree), old(Turn()), events, history, groupTree, Turn())
      ensures |events| <= 1 && (events != [] ==> events[0].Joins?)
    {
      hide RrInv, ActiveInv, RefInv, Pending, RI.Inv, HasId, RI.InsertRequest, T.Leads;
      Reclassify(q, kind.ioClass, kind.ioprio, queues[q].idleWindow && kind.ioClass != IDLE);
      events := AddRqRb(q, rq, expires, clash, now);
      rqQueued := rqQueued + 1;
      Reclassify(q, kind.ioClass, kind.ioprio, if queues[q].sync && kind.ioClass != IDLE then kind.idleWindow
                                               else queues[q].idleWindow);
      RI.InsertNonEmpty(tunables, old(index)[q], rq, expires, lastPosition);
    }

    /** The end of cfq_rq_enqueued: the request may preempt the active queue. */
    method MayPreempt(q: nat, rq: Request, a: PreemptAnswers, resid: int, scaled: nat, clash: bool, now: nat)
      returns (ghost events: seq<G.Event>)
      requires Inv() && q in queues && q in index && index[q].sort != []
      requires active.Some? ==> active.value in queues && active.value in index
      modifies `queues, `trees, `groups, `groupTree, `history, `busyQueues, `busySyncQueues, `active
      ensures Inv() && q in queues && queues[q].onRr
      ensures active == if old(active).Some? && old(active) != Some(q)
                           && Preempts(old(queues)[old(active).value], old(index)[old(active).value].sort == [],
                                       old(queues)[q], rq, servingType, a)
                        then None else old(active)
      ensures T.Moved(old(history), old(groupTree), old(Turn()), events, history, groupTree, Turn())
      ensures T.Plain(events, false)
    {
      hide RrInv, ActiveInv, RefInv, Pending, RI.Inv, FrontPlace, StFor, TypeOf, T.Leads, T.Plain, Preempts;
      events := [];
      T.MovedNowhere(history, groupTree, Turn());
      BusyWithRequests(queues, index, active, q);
      if active.Some? && active != Some(q) {
        var preempt := ShouldPreempt(active.value, q, rq, a);
        if preempt {
          events := PreemptQueue(q, resid, scaled, clash, now);
        }
      }
    }

    /** cfq_should_preempt, with its warning about differing classes as an assertion. */
    method ShouldPreempt(p: nat, q: nat, rq: Request, a: PreemptAnswers) returns (r: bool)
      requires Inv() && active == Some(p) && p in queues && p in index && q in queues
      ensures r == Preempts(queues[p], index[p].sort == [], queues[q], rq, servingType, a)
    {
      hide RrInv, ActiveInv, RefInv, Pending;
      var x, y, empty := queues[p], queues[q], index[p].sort == [];
      if y.ioClass == IDLE {
        return false;
      }
      if x.ioClass == IDLE {
        return true;
      }
      if x.ioClass == RT && y.ioClass != RT {
        return false;
      }
      if rq.sync && !x.sync && !a.mustDispatch {
        return true;
      }
      if !a.descendant {
        return false;
      }
      if a.sliceUsed || (y.ioClass == RT && x.ioClass != RT) {
        return true;
      }
      assert x.ioClass == y.ioClass;
      if (servingType == SYNC_NOIDLE && TypeOf(y) == SYNC_NOIDLE && empty) || (rq.prio && !a.prioPending) {
        return true;
      }
      if empty {
        var idle := ShouldIdle(p, a.shouldIdle);
        if !idle {
          return true;
        }
      }
      r := a.expected;
    }

    /** The elevator's sorted insertion: both counts move together. */
    method AddRequest(q: nat, rq: Request, mergeable: bool, expires: nat, kind: Queue, clash: bool,
                      a: PreemptAnswers, resid: int, scaled: nat, now: nat)
      returns (ghost events: seq<G.Event>)
      requires Valid() && (active.Some? ==> active.value in queues && active.value in index)
      requires q in queues && q in index && q in refs
      requires !HasId(index[q].sort, rq.id) && |index[q].sort| < refs[q].requests
      modifies this, queue
      ensures Valid() && Pending(index) == Pending(old(index)) + multiset{rq}
      ensures queue.queueHead == old(queue.queueHead) && queue.nrSorted == old(queue.nrSorted) + 1
      ensures T.Moved(old(history), old(groupTree), old(Turn()), events, history, groupTree, Turn())
      ensures T.JoinThenPlain(events)
    {
      hide RrInv, ActiveInv, RefInv, Pending, HasId, T.Leads, T.Plain;
      queue.AddSorted(rq, mergeable);
      events := InsertRequest(q, rq, expires, kind, clash, a, resid, scaled, now);
    }

    /** The elevator's merge of two sorted requests. */
    method MergeRequests(q: nat, rq: Request, nx: Request) returns (ghost events: seq<G.Event>)
      requires Valid() && q in queues && q in index && RI.Inv(index[q]) && nx in index[q].sort && rq != nx
      modifies this, queue
      ensures Valid() && nx in Pending(old(index)) && Pending(index) == Pending(old(index)) - multiset{nx}
      ensures queue.queueHead == old(queue.queueHead) && queue.nrSorted == old(queue.nrSorted) - 1
      ensures T.Moved(old(history), old(groupTree), old(Turn()), events, history, groupTree, Turn())
      ensures T.Plain(events, false)
    {
      hide RrInv, ActiveInv, RefInv, Pending, RI.Inv, T.Leads, T.Plain;
      events := MergedRequests(q, rq, nx);
      queue.MergedRequests(rq, true);
    }

    // ---------- dispatch ----------

    /**
     * cfq_dispatch_requests without force: at most one request moves, it is the FIFO head
     * or the next request of the queue selected, and both counts follow.
     */
    method DispatchOne(a: Answers, fifoExpired: bool, d: DispatchAnswers, expireAfter: bool, scaled: nat, now: nat)
      returns (n: nat, rq: Option<Request>, ghost events: seq<G.Event>)
      requires Valid()
      requires active.Some? ==> active.value in queues
      requires active.Some? && a.coop.Some? ==> CooperatorOf(queues, active.value, a.coop.value)
      modifies this, queue
      ensures Valid()
      ensures n == (if rq.Some? then 1 else 0)
      ensures rq.None? ==> index == old(index) && queue.queueHead == old(queue.queueHead) && rqQueued == old(rqQueued)
      ensures rq.Some? ==> rq.value in Pending(old(index)) && Pending(index) == Pending(old(index)) - multiset{rq.value}
                           && queue.queueHead == DispatchSorted(old(queue.queueHead), rq.value, old(queue.endSector))
      ensures rq.Some? ==> exists q :: q in old(index) && old(index)[q].fifo != [] &&
                             (rq == old(index)[q].next || (fifoExpired && rq.value == old(index)[q].fifo[0]))
      ensures T.Moved(old(history), old(groupTree), old(Turn()), events, history, groupTree, Turn())
      ensures T.Plain(events, a.coop.Some?)
    {
      hide RrInv, ActiveInv, RefInv, Pending, RI.Inv, CooperatorOf, TopOfSchedule, RI.DispatchRemove, DispatchSorted,
           ServedGroup, Queued, T.Leads, T.Plain, T.Leading;
      T.MovedNowhere(history, groupTree, Turn());
      T.PlainOnly([], a.coop.Some?);
      if busyQueues == 0 {
        return 0, None, [];
      }
      BusyNonNegative(queues, trees, groups, groupTree, busyQueues, busySyncQueues);
      var r, chosen, selection := SelectQueue(a, now);
      events := selection;
      SelectionPlain(selection, r.Some? && !chosen && r != old(active), a.coop.Some?);
      if r.None? {
        return 0, None, events;
      }
      var q := r.value;
      assert index[q].sort != [];
      ActiveQueueFacts(queues, index, active);
      var may := MayDispatch(q, d, a.shouldIdle);
      if !may {
        return 0, None, events;
      }
      NextAndHead(index[q]);
      rq := if fifoExpired then Some(index[q].fifo[0]) else index[q].next;
      DispatchInsert(q, rq.value);
      n := 1;
      if busyQueues > 1 && expireAfter {
        ghost var h, gt, turn := history, groupTree, Turn();
        ghost var last := SliceExpired(q, false, 0, scaled, a.clash, now);
        T.MovedFurther(old(history), old(groupTree), old(Turn()), events, h, gt, turn, last,
                       history, groupTree, Turn());
        T.PlainThenPlain(events, last, a.coop.Some?);
        events := events + last;
      }
    }

    /** cfq_may_dispatch up to the limits on requests in flight, which `room` answers for. */
    method MayDispatch(q: nat, d: DispatchAnswers, shouldIdle: bool) returns (r: bool)
      requires Inv() && active == Some(q) && q in queues
      ensures r == (d.mustDispatch || (!(shouldIdle && queues[q].ioClass != IDLE && d.asyncInFlight) && d.room))
    {
      hide RrInv, ActiveInv, RefInv, Pending;
      if d.mustDispatch {
        return true;
      }
      var idle := ShouldIdle(q, shouldIdle);
      if idle && d.asyncInFlight {
        return false;
      }
      r := d.room;
    }

    /** cfq_get_next_queue_forced: the first queue of any non-empty tree of the first group. */
    method NextQueueForced() returns (r: Option<nat>, ghost events: seq<G.Event>)
      requires Inv() && active == None
      modifies `trees, `groupTree, `history
      ensures Inv() && (r.None? <==> rqQueued == 0)
      ensures r.Some? ==> r.value in queues && queues[r.value].onRr && r.value in index && index[r.value].sort != []
      ensures r.Some? ==> G.IsFirst(groupTree, queues[r.value].cfqg)
      ensures T.Moved(old(history), old(groupTree), old(Turn()), events, history, groupTree, Turn())
      ensures T.Plain(events, false)
    {
      hide RrInv, ActiveInv, RefInv, Pending, RI.Inv, G.GetNext, T.Plain, T.Leads;
      events := [];
      T.MovedNowhere(history, groupTree, T.Free);
      BusyIffPending(queues, trees, groups, groupTree, busyQueues, busySyncQueues, index);
      if rqQueued == 0 {
        return None, [];
      }
      FirstGroupIsBusy(queues, trees, groups, groupTree, busyQueues, busySyncQueues);
      GetNextKeepsRr(queues, trees, groups, groupTree, busyQueues, busySyncQueues);
      ghost var gt := groupTree;
      groupTree := G.GetNext(groupTree);
      history := history + [G.Raises];
      events := [G.Raises];
      T.LeadsOn(gt, G.Raises, T.Free);
      r := FirstOfGroup(groupTree.nodes[0].id);
    }

    /** The search of the group's trees. */
    method FirstOfGroup(g: nat) returns (r: Option<nat>)
      requires Inv() && active == None && G.IsFirst(groupTree, g) && busyQueues > 0
      modifies `trees
      ensures Inv() && r.Some? && r.value in queues && queues[r.value].onRr
      ensures r.value in index && index[r.value].sort != [] && G.IsFirst(groupTree, queues[r.value].cfqg)
    {
      hide RrInv, TreesInv, ForestInv, ActiveInv, RefInv, Pending, RI.Inv, SameNodes;
      FirstGroupIsBusy(queues, trees, groups, groupTree, busyQueues, busySyncQueues);
      RrTrees(queues, trees, groups, groupTree, busyQueues, busySyncQueues);
      SomeTreeNonEmpty(queues, trees, groups, g);
      var sts := AllTrees(g);
      var i := 0;
      while i < |sts| && trees[sts[i]].nodes == []
        invariant 0 <= i <= |sts|
        invariant forall j :: 0 <= j < i ==> trees[sts[j]].nodes == []
        modifies {}
      {
        i := i + 1;
      }
      ghost var ts := trees;
      r := RbFirst(sts[i]);
      SameNodesKeepRr(queues, ts, trees, groups, groupTree, busyQueues, busySyncQueues);
      RrOfQueue(queues, trees, groups, groupTree, busyQueues, busySyncQueues, r.value);
      ActivateKeepsActive(queues, index, r.value);
      TopQueueGroup(queues, trees, groups, groupTree, busyQueues, busySyncQueues, sts[i], r.value);
    }

    /** __cfq_forced_dispatch_cfqq: empty the active queue onto the dispatch list and expire it. */
    method ForcedDispatchCfqq(q: nat, scaled: nat, now: nat)
      returns (dispatched: nat, ghost events: seq<G.Event>)
      requires Inv() && active == Some(q) && q in queues && q in index
      modifies `queues, `trees, `groups, `groupTree, `history, `busyQueues, `busySyncQueues, `index, `rqQueued,
               `active, queue
      ensures Inv() && active == None && groups.Keys == old(groups).Keys
      ensures dispatched == |old(index)[q].sort| && rqQueued == old(rqQueued) - dispatched
      ensures queue.nrSorted == old(queue.nrSorted) - dispatched && queue.endSector == old(queue.endSector)
      ensures multiset(queue.queueHead) + Pending(index) == multiset(old(queue.queueHead)) + Pending(old(index))
      ensures q in index && index[q].sort == [] && q in queues && !queues[q].onRr
      ensures T.Moved(old(history), old(groupTree), old(Turn()), events, history, groupTree, Turn())
      ensures T.Plain(events, false)
    {
      hide RrInv, ActiveInv, RefInv, Pending, RI.Inv, RI.DispatchRemove, DispatchSorted, ServedGroup,
           T.Leads, T.Plain;
      dispatched := 0;
      while true
        invariant Inv() && active == Some(q) && q in queues && q in index && groups.Keys == old(groups).Keys
        invariant dispatched + |index[q].sort| == |old(index)[q].sort| && rqQueued == old(rqQueued) - dispatched
        invariant queue.nrSorted == old(queue.nrSorted) - dispatched && queue.endSector == old(queue.endSector)
        invariant multiset(queue.queueHead) + Pending(index) == multiset(old(queue.queueHead)) + Pending(old(index))
        invariant groupTree == old(groupTree) && history == old(history) && queues[q].cfqg == old(queues)[q].cfqg
        decreases |index[q].sort|
      {
        ActiveQueueFacts(queues, index, active);
        if index[q].next == None {
          break;
        }
        NextAndHead(index[q]);
        ghost var h, ix := queue.queueHead, index;
        var rq := index[q].next.value;
        DispatchInsert(q, rq);
        DispatchMultiset(h, rq, queue.endSector);
        MovedOnce(multiset(h), Pending(ix), rq);
        dispatched := dispatched + 1;
      }
      EmptyFifo(index[q]);
      assert index[q].fifo == [];
      events := SliceExpired(q, false, 0, scaled, false, now);
    }

    /** One turn of that loop: the first queue found becomes active and is emptied. */
    method ForcedTurn(q: nat, scaled: nat, now: nat) returns (dispatched: nat, ghost events: seq<G.Event>)
      requires Inv() && active == None && q in queues && queues[q].onRr && q in index && index[q].sort != []
      requires G.IsFirst(groupTree, queues[q].cfqg)
      modifies `queues, `trees, `groups, `groupTree, `history, `busyQueues, `busySyncQueues, `index, `rqQueued, `active,
               queue
      ensures Inv() && active == None
      ensures dispatched == |old(index)[q].sort| && rqQueued == old(rqQueued) - dispatched
      ensures queue.nrSorted == old(queue.nrSorted) - dispatched
      ensures multiset(queue.queueHead) + Pending(index) == multiset(old(queue.queueHead)) + Pending(old(index))
      ensures T.Moved(old(history), old(groupTree), T.Free, events, history, groupTree, T.Free)
      ensures T.Plain(events, false)
    {
      hide RrInv, ActiveInv, RefInv, Pending, RI.Inv, T.Leads, T.Plain;
      ghost var past, gt, g := history, groupTree, queues[q].cfqg;
      T.LeadsOn(gt, G.Activates(g, false), T.Free);
      ActivateKeepsActive(queues, index, q);
      SetActiveQueue(q, false);
      ghost var mid, first := history, [G.Activates(g, false)];
      ghost var last;
      dispatched, last := ForcedDispatchCfqq(q, scaled, now);
      T.MovedFurther(past, gt, T.Free, first, mid, gt, T.Held(g), last, history, groupTree, T.Free);
      T.PlainThenPlain(first, last, false);
      events := first + last;
    }

    /**
     * cfq_forced_dispatch: returns the number of requests that were pending, each of which
     * is now on the dispatch list exactly once; no queue is busy.
     */
    method ForcedDispatch(charge: nat -> nat, now: nat)
      returns (dispatched: nat, ghost events: seq<G.Event>)
      requires Inv()
      modifies `queues, `trees, `groups, `groupTree, `history, `busyQueues, `busySyncQueues, `index, `rqQueued,
               `active, queue
      ensures Inv() && active == None
      ensures dispatched == old(rqQueued) == |Pending(old(index))| && rqQueued == 0 && busyQueues == 0
      ensures queue.nrSorted == old(queue.nrSorted) - dispatched
      ensures multiset(queue.queueHead) == multiset(old(queue.queueHead)) + Pending(old(index))
      ensures forall q :: q in queues ==> !queues[q].onRr
      ensures T.Moved(old(history), old(groupTree), old(Turn()), events, history, groupTree, Turn())
      ensures T.Plain(events, false)
    {
      hide RrInv, ActiveInv, RefInv, Pending, RI.Inv, T.Moved, T.Plain, G.IsFirst;
      events := SliceExpiredIfActive(false, 0, charge(0), false, now);
      dispatched := 0;
      ghost var h, gt := history, groupTree;
      var cfqq, raise := NextQueueForced();
      T.MovedFurther(old(history), old(groupTree), old(Turn()), events, h, gt, T.Free, raise,
                     history, groupTree, T.Free);
      T.PlainThenPlain(events, raise, false);
      events := events + raise;
      while cfqq.Some?
        invariant Inv() && active == None && rqQueued >= 0
        invariant cfqq.None? ==> rqQueued == 0
        invariant cfqq.Some? ==> cfqq.value in queues && queues[cfqq.value].onRr && cfqq.value in index
                                 && index[cfqq.value].sort != []
        invariant rqQueued == old(rqQueued) - dispatched && queue.nrSorted == old(queue.nrSorted) - dispatched
        invariant multiset(queue.queueHead) + Pending(index) == multiset(old(queue.queueHead)) + Pending(old(index))
        invariant cfqq.Some? ==> G.IsFirst(groupTree, queues[cfqq.value].cfqg)
        invariant T.Moved(old(history), old(groupTree), old(Turn()), events, history, groupTree, T.Free)
        invariant T.Plain(events, false)
        decreases rqQueued
      {
        h, gt := history, groupTree;
        var n, slice := ForcedTurn(cfqq.value, charge(cfqq.value), now);
        dispatched := dispatched + n;
        T.MovedFurther(old(history), old(groupTree), old(Turn()), events, h, gt, T.Free, slice,
                       history, groupTree, T.Free);
        T.PlainThenPlain(events, slice, false);
        events := events + slice;
        h, gt := history, groupTree;
        cfqq, raise := NextQueueForced();
        T.MovedFurther(old(history), old(groupTree), old(Turn()), events, h, gt, T.Free, raise,
                       history, groupTree, T.Free);
        T.PlainThenPlain(events, raise, false);
        events := events + raise;
      }
      BusyIffPending(queues, trees, groups, groupTree, busyQueues, busySyncQueues, index);
      BusyNonNegative(queues, trees, groups, groupTree, busyQueues, busySyncQueues);
      assert busyQueues == 0;
      NobodyBusy(queues, trees, groups, groupTree, busyQueues, busySyncQueues);
      assert Pending(index) == multiset{};
    }

    /** elv_drain_elevator: forced dispatch until it returns 0 leaves nothing sorted. */
    method Drain(charge: nat -> nat, now: nat) returns (ghost events: seq<G.Event>)
      requires Valid()
      modifies `queues, `trees, `groups, `groupTree, `history, `busyQueues, `busySyncQueues, `index, `rqQueued,
               `active, queue
      ensures Valid() && queue.nrSorted == 0 && rqQueued == 0 && busyQueues == 0
      ensures multiset(queue.queueHead) == multiset(old(queue.queueHead)) + Pending(old(index))
      ensures T.Moved(old(history), old(groupTree), old(Turn()), events, history, groupTree, Turn())
      ensures T.Plain(events, false)
    {
      hide RrInv, ActiveInv, RefInv, Pending, RI.Inv, T.Moved, T.Plain;
      events := [];
      T.MovedNowhere(history, groupTree, Turn());
      assert multiset(queue.queueHead) + Pending(index) == multiset(old(queue.queueHead)) + Pending(old(index));
      while true
        invariant Valid()
        invariant multiset(queue.queueHead) + Pending(index) == multiset(old(queue.queueHead)) + Pending(old(index))
        invariant T.Moved(old(history), old(groupTree), old(Turn()), events, history, groupTree, Turn())
        invariant T.Plain(events, false)
        decreases rqQueued
      {
        if busyQueues == 0 {
          break;
        }
        ghost var h, gt, turn := history, groupTree, Turn();
        var n, slices := ForcedDispatch(charge, now);
        T.MovedFurther(old(history), old(groupTree), old(Turn()), events, h, gt, turn, slices,
                       history, groupTree, Turn());
        T.PlainThenPlain(events, slices, false);
        events := events + slices;
        assert Pending(index) == multiset{};
        if n == 0 {
          break;
        }
      }
      NobodyPending(queues, trees, groups, groupTree, busyQueues, busySyncQueues, index, active);
      assert Pending(index) == multiset{};
    }

    // ---------- queues, references and groups ----------

    /** cfq_get_queue's allocation: a queue of group g with one or (pinned) two references. */
    method GetQueue(q: nat, g: nat, sync: bool, ioClass: WlClass, ioprio: nat)
      requires Inv() && q !in queues && g in groups
      modifies `queues, `index, `refs
      ensures Inv() && Pending(index) == Pending(old(index))
      ensures queues ==
              old(queues)[q := Queue(g, sync, ioClass, ioprio, sync && ioClass != IDLE, false, None, 0, 0, false)]
      ensures index == old(index)[q := RI.EMPTY]
      ensures refs == old(refs)[q := Refs(if sync then 1 else 2, 0)]
    {
      hide RrInv, ActiveInv, RefInv, Pending, RI.Inv;
      var x := Queue(g, sync, ioClass, ioprio, sync && ioClass != IDLE, false, None, 0, 0, false);
      var r := Refs(if sync then 1 else 2, 0);
      NewQueueKeepsRr(queues, trees, groups, groupTree, busyQueues, busySyncQueues, q, x);
      NewQueueKeepsRest(queues, index, refs, active, q, x, r);
      queues, index, refs := queues[q := x], index[q := RI.EMPTY], refs[q := r];
    }

    /** References taken: `n` by processes (merge, cic slot) and `m` by new requests. */
    method TakeRefs(q: nat, n: nat, m: nat)
      requires Inv() && q in refs
      modifies `refs
      ensures Inv() && refs == old(refs)[q := Refs(old(refs)[q].count + n + m, old(refs)[q].requests + m)]
    {
      hide RrInv, ActiveInv, Pending, RI.Inv;
      refs := refs[q := Refs(refs[q].count + n + m, refs[q].requests + m)];
    }

    /** The tail of cfq_put_queue: expire the queue if it is active, then free it. */
    method FreeQueue(q: nat, scaled: nat, now: nat) returns (ghost events: seq<G.Event>)
      requires Inv() && q in queues && q in index && index[q].sort == []
      modifies `queues, `trees, `groups, `groupTree, `history, `busyQueues, `busySyncQueues, `active, `index, `refs
      ensures Inv() && Pending(index) == Pending(old(index)) && active != Some(q)
      ensures queues.Keys == old(queues).Keys - {q} && index == old(index) - {q} && refs == old(refs) - {q}
      ensures T.Moved(old(history), old(groupTree), old(Turn()), events, history, groupTree, Turn())
      ensures T.Plain(events, false)
    {
      hide RrInv, ActiveInv, RefInv, Pending, RI.Inv, ServedGroup, Queued, T.Leads, T.Plain;
      events := [];
      T.MovedNowhere(history, groupTree, Turn());
      if active == Some(q) {
        events := SliceExpired(q, false, 0, scaled, false, now);
      }
      QueueFacts(queues, index, refs, active, q);
      assert !queues[q].onRr;
      DropQueueKeepsRr(queues, trees, groups, groupTree, busyQueues, busySyncQueues, q);
      DropQueueKeepsRest(queues, index, refs, active, q);
      queues, index, refs := queues - {q}, index - {q}, refs - {q};
    }

    /**
     * cfq_put_queue, for a process reference or (`ofRequest`) that of a freed request.
     * The last reference frees the queue, and a freed queue is never busy.
     */
    method PutQueue(q: nat, ofRequest: bool, scaled: nat, now: nat) returns (ghost events: seq<G.Event>)
      requires Inv() && q in queues && q in index && q in refs
      requires if ofRequest then refs[q].requests > |index[q].sort| else refs[q].count > refs[q].requests
      modifies `queues, `trees, `groups, `groupTree, `history, `busyQueues, `busySyncQueues, `active, `index, `refs
      ensures Inv() && Pending(index) == Pending(old(index))
      ensures q in queues <==> old(refs)[q].count > 1
      ensures if old(refs)[q].count > 1
              then queues == old(queues) && index == old(index)
                   && refs == old(refs)[q := Refs(old(refs)[q].count - 1,
                                                  old(refs)[q].requests - if ofRequest then 1 else 0)]
              else refs == old(refs) - {q} && index == old(index) - {q}
                   && active != Some(q) && old(index)[q].sort == []
      ensures T.Moved(old(history), old(groupTree), old(Turn()), events, history, groupTree, Turn())
      ensures T.Plain(events, false)
    {
      hide RrInv, ActiveInv, Pending, RI.Inv, T.Leads, T.Plain;
      events := [];
      T.MovedNowhere(history, groupTree, Turn());
      QueueFacts(queues, index, refs, active, q);
      assert refs[q].count > 0;
      var r := Refs(refs[q].count - 1, refs[q].requests - if ofRequest then 1 else 0);
      if r.count > 0 {
        refs := refs[q := r];
      } else {
        hide RefInv;
        assert index[q].sort == [];
        assert r.requests == 0;
        events := FreeQueue(q, scaled, now);
      }
    }

    /** A cgroup comes online. */
    method NewGroup(g: nat)
      requires Inv() && g !in groups
      modifies `groups, `trees
      ensures Inv() && groups == old(groups)[g := Group(0, 0, ASYNC, BE)]
      ensures trees == old(trees) + (map t | t in AllTrees(g) :: EMPTY_ROOT)
    {
      hide RrInv, ActiveInv, RefInv, Pending;
      NewGroupKeepsRr(queues, trees, groups, groupTree, busyQueues, busySyncQueues, g);
      trees := trees + (map t | t in AllTrees(g) :: EMPTY_ROOT);
      groups := groups[g := Group(0, 0, ASYNC, BE)];
    }

    // ---------- every interleaving ----------

    /** Handle one event, if its caller's obligations are met in the present state. */
    method Handle(e: Event) returns (ghost events: seq<G.Event>)
      requires Valid()
      modifies this, queue
      ensures Valid()
      ensures T.Moved(old(history), old(groupTree), old(Turn()), events, history, groupTree, Turn())
      ensures forall g :: G.Leaves(g) in events ==> !G.OnTree(groupTree, g)
      ensures forall g :: G.Activates(g, true) in events ==> AsksCooperator(e)
    {
      hide RrInv, ActiveInv, RefInv, Pending, RI.Inv, CooperatorOf, HasId, TopOfSchedule,
           T.Moved, T.Plain, T.JoinThenPlain, G.OnTree, G.TreeInv;
      ghost var past, gt, turn := history, groupTree, Turn();
      GroupTimes(queues, trees, groups, gt, busyQueues, busySyncQueues);
      KeysAgree(queues, index, refs, active);
      events := [];
      T.MovedNowhere(past, gt, turn);
      match e {
        case Arrive(q, rq, kind, clash, a, resid, scaled, expires, now) =>
          if q in queues && !HasId(index[q].sort, rq.id) && |index[q].sort| < refs[q].requests {
            events := AddRequest(q, rq, false, expires, kind, clash, a, resid, scaled, now);
          }
        case Merge(q, rq, nx) =>
          if q in queues && nx in index[q].sort && rq != nx {
            BusyWithRequests(queues, index, active, q);
            events := MergeRequests(q, rq, nx);
          }
        case Dispatch(a, fifoExpired, d, expireAfter, scaled, now) =>
          if active.Some? && a.coop.Some? && !CooperatorOf(queues, active.value, a.coop.value) {
            return [];
          }
          var n, rq, slices := DispatchOne(a, fifoExpired, d, expireAfter, scaled, now);
          events := slices;
        case DrainAll(charge, now) => events := Drain(charge, now);
        case Timeout(timedOut, resid, scaled, clash, now) =>
          events := SliceExpiredIfActive(timedOut, resid, scaled, clash, now);
        case Put(q, ofRequest, scaled, now) =>
          if q in queues
             && (if ofRequest then refs[q].requests > |index[q].sort| else refs[q].count > refs[q].requests) {
            events := PutQueue(q, ofRequest, scaled, now);
          }
        case FrontMerge(_, _, _, _) => HandleQuietly(e);
        case Activate(_) => HandleQuietly(e);
        case Reprioritize(_, _, _, _) => HandleQuietly(e);
        case _ => HandleLifetime(e);
      }
      LeaversAreOff(past, gt, turn, events, history, groupTree, Turn(), AsksCooperator(e));
    }

    /** The events that leave the group tree alone. */
    method HandleQuietly(e: Event)
      requires Valid() && (e.FrontMerge? || e.Activate? || e.Reprioritize?)
      modifies this, queue
      ensures Valid() && groupTree == old(groupTree) && history == old(history) && Turn() == old(Turn())
    {
      hide RrInv, ActiveInv, RefInv, Pending, RI.Inv, RI.Reposition, HasId;
      KeysAgree(queues, index, refs, active);
      if e.FrontMerge? {
        var FrontMerge(q, rq, moved, clash) := e;
        if q in queues && rq in index[q].sort && moved.id == rq.id && moved.sync == rq.sync {
          MergedRequest(q, rq, moved, clash);
        }
      } else if e.Activate? {
        ActivateRequest(e.rq);
      } else if e.q in queues {
        Reclassify(e.q, e.ioClass, e.ioprio, e.idleWindow);
      }
    }

    /** Queues and groups that appear, and references that are taken. */
    method HandleLifetime(e: Event)
      requires Valid() && (e.Create? || e.Ref? || e.Online?)
      modifies this, queue
      ensures Valid() && groupTree == old(groupTree) && history == old(history) && Turn() == old(Turn())
    {
      hide RrInv, ActiveInv, RefInv, Pending, RI.Inv;
      KeysAgree(queues, index, refs, active);
      if e.Create? {
        if e.q !in queues && e.g in groups {
          GetQueue(e.q, e.g, e.sync, e.ioClass, e.ioprio);
        }
      } else if e.Ref? {
        if e.q in refs {
          TakeRefs(e.q, e.n, e.m);
        }
      } else if e.g !in groups {
        NewGroup(e.g);
      }
    }

    /**
     * The invariant, and with it every assert above, holds over any sequence of events, which
     * moves the group tree as a run of fair scheduling does: the floor never falls and passes
     * no group, and a group that stays and waits is charged once more paid charges of first
     * groups pass than its backlog.  A charge is of the first group unless a cooperator took
     * over after a charge that had put another group first.
     */
    method Run(es: seq<Event>) returns (ghost events: seq<G.Event>)
      requires Valid()
      modifies this, queue
      ensures Valid() && groupTree == G.Run(old(groupTree), events)
      ensures T.Moved(old(history), old(groupTree), old(Turn()), events, history, groupTree, Turn())
      ensures groupTree.base >= old(groupTree).base && forall n :: n in groupTree.nodes ==> groupTree.base <= n.v
      ensures forall x, w :: G.WaitsAt(old(groupTree), x, w) && G.Leaves(x) !in events
                             && G.Paid(old(groupTree), events) > G.Backlog(old(groupTree).nodes, x, w) ==>
                               G.Served(old(groupTree), events, x)
      ensures old(OnTop()) ==> T.FirstOrAstray(old(groupTree), events)
      ensures old(OnTop()) && (forall e :: e in es ==> !AsksCooperator(e)) ==>
                T.MinFirst(old(groupTree), events) && G.Paid(old(groupTree), events) == T.Charges(events)
    {
      hide G.Run, T.MinFirst, RrInv, ActiveInv, RefInv, Pending, G.WaitsAt, G.Paid, G.Backlog, G.Served, G.TreeInv,
           T.Moved, T.FirstOrAstray;
      ghost var past, gt, turn := history, groupTree, Turn();
      GroupTimes(queues, trees, groups, groupTree, busyQueues, busySyncQueues);
      events := [];
      T.MovedNowhere(past, gt, turn);
      for i := 0 to |es|
        invariant Valid() && T.Moved(past, gt, turn, events, history, groupTree, Turn())
        invariant forall g :: G.Activates(g, true) in events ==> exists e :: e in es[..i] && AsksCooperator(e)
      {
        ghost var mid, h, t := history, groupTree, Turn();
        ghost var more := Handle(es[i]);
        assert es[..i + 1] == es[..i] + [es[i]];
        T.MovedFurther(past, gt, turn, events, mid, h, t, more, history, groupTree, Turn());
        events := events + more;
      }
      assert es[..|es|] == es;
      RunIsFair(past, gt, turn, events, history, groupTree, Turn());
    }
  }

  /** An event whose selection may go to a close cooperator of the active queue. */
  predicate AsksCooperator(e: Event) {
    e.Dispatch? && e.a.coop.Some?
  }

  lemma GroupTimes(qs: Queues, ts: Trees, gs: Groups, gt: G.Tree, busy: int, busySync: int)
    requires RrInv(qs, ts, gs, gt, busy, busySync)
    ensures G.TreeInv(gt)
  {
  }

  /** Groups that leave in an event are off the tree after it, and only one kind of event has cooperators. */
  lemma LeaversAreOff(past: seq<G.Event>, g: G.Tree, turn: T.Turn, es: seq<G.Event>, now: seq<G.Event>, h: G.Tree,
                      end: T.Turn, coop: bool)
    requires G.TreeInv(g) && T.Moved(past, g, turn, es, now, h, end) && (T.Plain(es, coop) || T.JoinThenPlain(es))
    ensures forall x :: G.Leaves(x) in es ==> !G.OnTree(h, x)
    ensures forall x :: G.Activates(x, true) in es ==> coop
  {
    T.LeadsIsRun(g, es, h, turn, end);
    T.PlainTail(es, coop);
    forall x | G.Leaves(x) in es
      ensures !G.OnTree(h, x)
    {
      T.LeavesForGood(g, es, coop, x);
    }
  }

  lemma RunIsFair(past: seq<G.Event>, g: G.Tree, turn: T.Turn, es: seq<G.Event>, now: seq<G.Event>, h: G.Tree,
                  end: T.Turn)
    requires G.TreeInv(g) && T.Moved(past, g, turn, es, now, h, end) && !turn.Left?
    ensures h == G.Run(g, es) && h.base >= g.base && forall n :: n in h.nodes ==> h.base <= n.v
    ensures forall x, w :: G.WaitsAt(g, x, w) && G.Leaves(x) !in es && G.Paid(g, es) > G.Backlog(g.nodes, x, w) ==>
                             G.Served(g, es, x)
    ensures (turn.Held? ==> G.IsFirst(g, turn.id)) ==> T.FirstOrAstray(g, es)
    ensures (turn.Held? ==> G.IsFirst(g, turn.id)) && (forall e :: e in es && e.Activates? ==> !e.coop) ==>
              T.MinFirst(g, es) && G.Paid(g, es) == T.Charges(es)
  {
    T.LeadsIsRun(g, es, h, turn, end);
    G.FloorNeverPasses(g, es);
    if turn.Held? ==> G.IsFirst(g, turn.id) {
      T.ChargesAreFirstOrAstray(g, es, h, turn, end);
      if forall e :: e in es && e.Activates? ==> !e.coop {
        T.NobodyAstray(g, es, h, turn, end);
      }
    }
    forall x, w | G.WaitsAt(g, x, w) && G.Leaves(x) !in es && G.Paid(g, es) > G.Backlog(g.nodes, x, w)
      ensures G.Served(g, es, x)
    {
      G.WaiterIsServed(g, es, x, w);
    }
  }

  /** Selection takes over by a cooperator only if one was offered. */
  lemma SelectionPlain(es: seq<G.Event>, taken: bool, offered: bool)
    requires T.Plain(es, taken) && (taken ==> offered)
    ensures T.Plain(es, offered)
  {
  }

  /**
   * A group is expired, another one is served with a workload of its own, and the first one is
   * chosen again: if its class is then still the highest busy one and its type has queues, it
   * resumes that type with exactly the time that it had left.
   */
  method ServeThenResume(t: CfqData, g: nat, scaled: nat, now: nat, h: nat, hScaled: nat, hClass: WlClass,
                         hType: WlType, hExpires: int, between: nat, later: nat, wlSlice: nat)
    requires t.Inv() && g in t.groups && h in t.groups && g != h && t.busyQueues > 0
    requires G.OnTree(t.groupTree, g) && G.OnTree(t.groupTree, h)
    modifies t
    ensures t.Inv() && t.servingGroup.Some? && t.servingGroup.value in t.groups
    ensures HighestClass(t.trees, t.servingGroup.value, t.servingClass)
    ensures t.servingGroup == Some(g) && t.servingClass == old(t.servingClass) != IDLE && old(t.workloadExpires) > now
            && StFor(g, old(t.servingClass), old(t.servingType)) in t.trees
            && t.trees[StFor(g, old(t.servingClass), old(t.servingType))].nodes != [] ==>
              t.servingType == old(t.servingType) && t.workloadExpires - later == old(t.workloadExpires) - now
  {
    hide RrInv, ActiveInv, RefInv, Pending, G.Charged, G.OnTree, HighestClass;
    StaysOnTree(t.queues, t.groups, t.groupTree, t.busyQueues, t.busySyncQueues, t.trees, g, scaled);
    t.GroupServed(g, scaled, now);
    t.servingClass, t.servingType, t.workloadExpires := hClass, hType, hExpires;
    t.GroupServed(h, hScaled, between);
    t.ChooseCfqg(later, wlSlice);
  }

  lemma StaysOnTree(qs: Queues, gs: Groups, gt: G.Tree, busy: int, busySync: int, ts: Trees, g: nat, scaled: nat)
    requires RrInv(qs, ts, gs, gt, busy, busySync) && G.OnTree(gt, g)
    ensures forall h :: G.OnTree(gt, h) ==> G.OnTree(G.Charged(gt, g, scaled), h)
  {
    G.ChargedKeepsInv(gt, g, scaled);
  }

  /** The entry points, with the answers of clocks, timers and estimators as arguments. */
  datatype Event =
    | Arrive(q: nat, rq: Request, kind: Queue, clash: bool, p: PreemptAnswers, resid: int, scaled: nat, expires: nat,
             now: nat)
    | FrontMerge(q: nat, rq: Request, moved: Request, clash: bool)
    | Merge(q: nat, rq: Request, nx: Request)
    | Dispatch(a: Answers, fifoExpired: bool, d: DispatchAnswers, expireAfter: bool, scaled: nat, now: nat)
    | DrainAll(charge: nat -> nat, now: nat)
    | Timeout(timedOut: bool, resid: int, scaled: nat, clash: bool, now: nat)
    | Activate(rq: Request)
    | Reprioritize(q: nat, ioClass: WlClass, ioprio: nat, idleWindow: bool)
    | Create(q: nat, g: nat, sync: bool, ioClass: WlClass, ioprio: nat)
    | Ref(q: nat, n: nat, m: nat)
    | Put(q: nat, ofRequest: bool, scaled: nat, now: nat)
    | Online(g: nat)

  lemma KeysAgree(qs: Queues, ix: map<nat, RI.Index>, rs: map<nat, Refs>, active: Option<nat>)
    requires ActiveInv(qs, ix, active) && RefInv(ix, rs)
    ensures ix.Keys == qs.Keys && rs.Keys == qs.Keys
    ensures active.Some? ==> active.value in qs
  {
  }

  lemma NextAndHead(x: RI.Index)
    requires RI.Inv(x) && x.sort != []
    ensures x.next.Some? && x.next.value in x.sort && x.fifo != [] && x.fifo[0] in x.sort
  {
    assert x.sort[0] in x.fifo;
    assert x.fifo[0] in x.fifo;
  }

  lemma EmptyFifo(x: RI.Index)
    requires RI.Inv(x) && x.next.None?
    ensures x.fifo == [] && x.sort == []
  {
    assert ToSet(x.fifo) == {};
    NoDupCardinality(x.fifo);
  }

  lemma MovedOnce(h: multiset<Request>, p: multiset<Request>, r: Request)
    requires r in p
    ensures (h + multiset{r}) + (p - multiset{r}) == h + p
  {
  }

  lemma InsertFacts(t: Tunables, qs: Queues, ix: map<nat, RI.Index>, active: Option<nat>,
                    q: nat, r: Request, expires: nat, last: nat)
    requires ActiveInv(qs, ix, active) && q in qs && q in ix && !HasId(ix[q].sort, r.id)
    ensures var y := RI.InsertRequest(t, ix[q], r, expires, last);
            && RI.Inv(y) && multiset(y.sort) == multiset(ix[q].sort) + multiset{r}
            && |y.sort| == |ix[q].sort| + 1 && y.next.Some?
  {
    RI.InsertKeepsInv(t, ix[q], r, expires, last);
  }

  /** Where a queue put at the front of its tree ends up. */
  lemma FrontFacts(qs: Queues, ts: Trees, gs: Groups, q: nat, nr: int, now: nat, sliceSync: nat, sliceAsync: nat,
                   ts': Trees)
    requires TreesInv(qs, ts, gs) && q in qs && StOf(qs[q]) in ts && StOf(qs[q]) in ts'
    requires var st := StOf(qs[q]);
             var key := ServiceKey(ts[st], nr, qs[q], q, true, now, sliceSync, sliceAsync);
             ts'[st].nodes == Requeued(ts[st], st, qs[q], q, key)
    ensures FrontPlace(ts', StOf(qs[q]), qs[q], q)
  {
    var st := StOf(qs[q]);
    var r := ts[st];
    assert RootInv(r) && Keys64(r) && NodesMatch(qs, ts, st);
    assert qs[q].tree == Some(st) ==> LinkedAt(qs, ts, q, st);
    assert HasNode(r, q) ==> qs[q].tree == Some(st) by {
      if HasNode(r, q) {
        NotLinkedElsewhere(qs, ts, gs, q, st);
      }
    }
    hide TreesInv;
    if qs[q].ioClass != IDLE {
      FrontKeyIs(r, st, qs[q], q, now);
      FrontIsPlaced(r, ts'[st].nodes, st, qs[q], q, now);
      var others := Without(r.nodes, q);
      if others != [] {
        WithoutMembers(r.nodes, q);
        assert others[0] in others;
        FrontKeyBelow(r, others, qs[q], st, now);
      }
    }
  }

  lemma CountedListed(x: RI.Index)
    requires RI.Inv(x)
    ensures RI.Listed(x)
  {
  }

  lemma DispatchFacts(t: Tunables, x: RI.Index, r: Request)
    requires RI.Inv(x) && r in x.sort
    ensures var y := RI.DispatchRemove(t, x, r);
            RI.Inv(y) && multiset(y.sort) == multiset(x.sort) - multiset{r} && |y.sort| == |x.sort| - 1
  {
    RI.DispatchKeepsInv(t, x, r);
  }

  lemma RepositionFacts(t: Tunables, qs: Queues, ix: map<nat, RI.Index>, active: Option<nat>,
                        q: nat, r: Request, r': Request, last: nat)
    requires ActiveInv(qs, ix, active) && q in qs && q in ix && r in ix[q].sort && r'.id == r.id && r'.sync == r.sync
    ensures var y := RI.Reposition(t, ix[q], r, r', last);
            && RI.Inv(y) && |y.sort| == |ix[q].sort|
            && multiset(y.sort) == multiset(ix[q].sort) - multiset{r} + multiset{r'}
  {
    RI.RepositionKeepsInv(t, ix[q], r, r', last);
  }

  lemma BusyWithRequests(qs: Queues, ix: map<nat, RI.Index>, active: Option<nat>, q: nat)
    requires ActiveInv(qs, ix, active) && q in qs && q in ix && ix[q].sort != []
    ensures qs[q].onRr && RI.Inv(ix[q])
  {
  }

  lemma MergeFacts(t: Tunables, x: RI.Index, rq: Request, nx: Request)
    requires RI.Inv(x) && rq in x.sort && nx in x.sort && rq != nx
    ensures RI.Listed(x)
    ensures var y := RI.MergedRequests(t, x, rq, nx);
            RI.Inv(y) && multiset(y.sort) == multiset(x.sort) - multiset{nx} && |y.sort| == |x.sort| - 1
  {
    RI.MergeKeepsInv(t, x, rq, nx);
  }

  lemma RemoveFacts(t: Tunables, x: RI.Index, nx: Request)
    requires RI.Inv(x) && nx in x.sort
    ensures var y := RI.RemoveRequest(t, x, nx);
            RI.Inv(y) && multiset(y.sort) == multiset(x.sort) - multiset{nx} && |y.sort| == |x.sort| - 1
  {
    RI.RemoveKeepsListed(t, x, nx);
    RI.RemoveKeepsInv(t, x, nx);
  }
}
