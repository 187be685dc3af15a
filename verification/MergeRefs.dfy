/**
 * Queue references, the cooperating-queue chains and the processes' queue slots.
 *
 * A queue is referenced by process contexts, by its requests, by its group (if asynchronous)
 * and by every process reference of each queue that is scheduled to merge into it.
 */
module MergeRefs {
  import opened Seqs
  import opened Kernel

  datatype CfqQueue = CfqQueue(ref: int, readRqs: int, writeRqs: int, next: Option<nat>, sync: bool,
                               coop: bool, splitCoop: bool)

  /** A process context together with the synchronous or asynchronous half of it. */
  datatype Slot = Slot(cic: nat, sync: bool)

  /** Where a group remembers its asynchronous queue of one priority. */
  datatype AsyncKey = AsyncKey(group: nat, prio: nat)

  type Queues = map<nat, CfqQueue>
  type Slots = map<Slot, nat>
  type Pins = map<AsyncKey, nat>
  type Requests = map<nat, (nat, Dir)>

  /** Process references on a queue that nobody will ever drop. */
  type Leaks = map<nat, nat>

  function Allocated(x: CfqQueue): int {
    x.readRqs + x.writeRqs
  }

  function ProcessRefs(x: CfqQueue): int {
    x.ref - Allocated(x)
  }

  function Allocate(x: CfqQueue, rw: Dir, n: int): CfqQueue {
    if rw == READ then x.(readRqs := x.readRqs + n) else x.(writeRqs := x.writeRqs + n)
  }

  /** A queue with one more request, which holds a reference. */
  function WithRequest(x: CfqQueue, rw: Dir): (y: CfqQueue)
    ensures y.sync == x.sync && y.next == x.next && ProcessRefs(y) == ProcessRefs(x)
  {
    Allocate(x, rw, 1).(ref := x.ref + 1)
  }

  // ---------- counting ----------

  /** How many keys hold v. */
  ghost function CountOf<K(!new), V(!new)>(m: map<K, V>, v: V): nat {
    |set k | k in m && m[k] == v|
  }

  lemma CountInsert<K(!new), V(!new)>(m: map<K, V>, k: K, w: V, v: V)
    requires k !in m
    ensures CountOf(m[k := w], v) == CountOf(m, v) + if w == v then 1 else 0
  {
    var s := set j | j in m && m[j] == v;
    var n := m[k := w];
    var t := set j | j in n && n[j] == v;
    assert t == if w == v then s + {k} else s;
  }

  lemma CountDelete<K(!new), V(!new)>(m: map<K, V>, k: K, v: V)
    requires k in m
    ensures CountOf(m - {k}, v) == CountOf(m, v) - if m[k] == v then 1 else 0
  {
    CountInsert(m - {k}, k, m[k], v);
    assert (m - {k})[k := m[k]] == m;
  }

  lemma CountZero<K(!new), V(!new)>(m: map<K, V>, v: V)
    requires CountOf(m, v) == 0
    ensures forall k :: k in m ==> m[k] != v
  {
    var s := set j | j in m && m[j] == v;
    forall k | k in m
      ensures m[k] != v
    {
      assert k !in s;
    }
  }

  lemma CountPositive<K(!new), V(!new)>(m: map<K, V>, k: K)
    requires k in m
    ensures CountOf(m, m[k]) > 0
  {
    if CountOf(m, m[k]) == 0 {
      CountZero(m, m[k]);
    }
  }

  /** The references queue x holds on q because it will merge into it. */
  function Part(x: CfqQueue, q: nat): int {
    if x.next == Some(q) then ProcessRefs(x) else 0
  }

  /** The references on q owed to queues scheduled to merge into it. */
  ghost function Incoming(qs: Queues, q: nat): int {
    if qs == map[] then 0
    else
      var p :| p in qs;
      Part(qs[p], q) + Incoming(qs - {p}, q)
  }

  lemma {:induction false} IncomingPick(qs: Queues, q: nat, p: nat)
    requires p in qs
    ensures Incoming(qs, q) == Part(qs[p], q) + Incoming(qs - {p}, q)
    decreases |qs|
  {
    var o :| o in qs && Incoming(qs, q) == Part(qs[o], q) + Incoming(qs - {o}, q);
    if o != p {
      IncomingPick(qs - {o}, q, p);
      IncomingPick(qs - {p}, q, o);
      assert qs - {o} - {p} == qs - {p} - {o};
    }
  }

  lemma IncomingUpdate(qs: Queues, q: nat, p: nat, x: CfqQueue)
    requires p in qs
    ensures Incoming(qs[p := x], q) == Incoming(qs, q) - Part(qs[p], q) + Part(x, q)
  {
    IncomingPick(qs, q, p);
    IncomingPick(qs[p := x], q, p);
    assert qs[p := x] - {p} == qs - {p};
  }

  lemma IncomingInsert(qs: Queues, q: nat, p: nat, x: CfqQueue)
    requires p !in qs
    ensures Incoming(qs[p := x], q) == Incoming(qs, q) + Part(x, q)
  {
    IncomingPick(qs[p := x], q, p);
    assert qs[p := x] - {p} == qs;
  }

  lemma {:induction false} IncomingBounds(qs: Queues, q: nat)
    requires forall p :: p in qs ==> ProcessRefs(qs[p]) >= 0
    ensures Incoming(qs, q) >= 0
    ensures forall p :: p in qs ==> Part(qs[p], q) <= Incoming(qs, q)
    decreases |qs|
  {
    if qs != map[] {
      var o :| o in qs && Incoming(qs, q) == Part(qs[o], q) + Incoming(qs - {o}, q);
      assert Part(qs[o], q) >= 0;
      IncomingBounds(qs - {o}, q);
      assert Incoming(qs, q) >= 0;
      assert forall p :: p in qs ==> p == o || p in qs - {o};
    }
  }

  // ---------- invariants ----------

  ghost function Claims(qs: Queues, ss: Slots, ps: Pins, q: nat): int {
    CountOf(ss, q) + CountOf(ps, q) + Incoming(qs, q)
  }

  function Leaked(lk: Leaks, q: nat): nat {
    if q in lk then lk[q] else 0
  }

  /**
   * Every live queue has exactly the process references that its slots, its pin, its incoming
   * chains and its leaks account for, `plus` being one more that a running handler still
   * holds.  A queue with a leak is live.
   */
  ghost predicate Covered(qs: Queues, ss: Slots, ps: Pins, plus: Option<nat>, lk: Leaks) {
    && (forall q :: q in qs ==> CoveredAt(qs, ss, ps, plus, lk, q))
    && (forall q :: q in lk && lk[q] > 0 ==> q in qs)
  }

  ghost predicate CoveredAt(qs: Queues, ss: Slots, ps: Pins, plus: Option<nat>, lk: Leaks, q: nat)
    requires q in qs
  {
    && 0 <= ProcessRefs(qs[q])
    && ProcessRefs(qs[q]) == Claims(qs, ss, ps, q) + Leaked(lk, q) + if plus == Some(q) then 1 else 0
  }

  /** Slots and pins hold live queues of their kind; only a queue without processes has a freed one ahead. */
  ghost predicate Wired(qs: Queues, ss: Slots, ps: Pins) {
    && (forall k :: k in ss ==> ss[k] in qs && qs[ss[k]].sync == k.sync)
    && (forall k :: k in ps ==> ps[k] in qs && !qs[ps[k]].sync)
    && (forall q :: q in qs && qs[q].next.Some? ==> qs[q].sync)
    && (forall q :: q in qs && qs[q].next.Some? && ProcessRefs(qs[q]) > 0 ==>
          qs[q].next.value in qs && qs[qs[q].next.value].sync)
  }

  /** The chains have no cycle: ranks rise along every link between live queues. */
  ghost predicate Ranked(qs: Queues, rank: map<nat, nat>, top: nat) {
    && (forall q :: q in qs ==> q in rank && rank[q] <= top)
    && (forall q :: q in qs && qs[q].next.Some? && qs[q].next.value in qs ==> rank[q] < rank[qs[q].next.value])
  }

  /** allocated[] counts the requests of each queue; every request's queue is live. */
  ghost predicate Counted(qs: Queues, rs: Requests) {
    && (forall r :: r in rs ==> rs[r].0 in qs)
    && (forall q :: q in qs ==> qs[q].readRqs == CountOf(rs, (q, READ)) && qs[q].writeRqs == CountOf(rs, (q, WRITE)))
  }

  ghost predicate Referenced(qs: Queues) {
    forall q :: q in qs ==> qs[q].ref > 0
  }

  // ---------- what a single reference drop does ----------

  /** cfq_put_queue on the table of queues. */
  function Put(qs: Queues, q: nat): Queues
    requires q in qs
  {
    if qs[q].ref == 1 then qs - {q} else qs[q := qs[q].(ref := qs[q].ref - 1)]
  }

  lemma DropCovered(qs: Queues, ss: Slots, ps: Pins, c: nat, lk: Leaks)
    requires Covered(qs, ss, ps, Some(c), lk) && c in qs
    ensures Covered(qs[c := qs[c].(ref := qs[c].ref - 1)], ss, ps, qs[c].next, lk)
  {
    var qs' := qs[c := qs[c].(ref := qs[c].ref - 1)];
    assert CoveredAt(qs, ss, ps, Some(c), lk, c);
    IncomingBounds(qs, c);
    forall q | q in qs'
      ensures CoveredAt(qs', ss, ps, qs[c].next, lk, q)
    {
      assert CoveredAt(qs, ss, ps, Some(c), lk, q);
      IncomingUpdate(qs, q, c, qs'[c]);
    }
  }

  lemma FreeCovered(qs: Queues, ss: Slots, ps: Pins, c: nat, plus: Option<nat>, lk: Leaks)
    requires Covered(qs, ss, ps, plus, lk) && Wired(qs, ss, ps) && c in qs && ProcessRefs(qs[c]) == 0
    ensures Covered(qs - {c}, ss, ps, plus, lk) && Wired(qs - {c}, ss, ps) && plus != Some(c)
  {
    assert CoveredAt(qs, ss, ps, plus, lk, c);
    IncomingBounds(qs, c);
    CountZero(ss, c);
    CountZero(ps, c);
    forall q | q in qs - {c}
      ensures CoveredAt(qs - {c}, ss, ps, plus, lk, q)
    {
      assert CoveredAt(qs, ss, ps, plus, lk, q);
      IncomingPick(qs, q, c);
    }
    forall q | q in qs && qs[q].next == Some(c)
      ensures ProcessRefs(qs[q]) <= 0
    {
      assert Part(qs[q], c) <= Incoming(qs, c);
    }
  }

  lemma DropWired(qs: Queues, ss: Slots, ps: Pins, c: nat)
    requires Wired(qs, ss, ps) && c in qs
    ensures Wired(qs[c := qs[c].(ref := qs[c].ref - 1)], ss, ps)
  {
  }

  lemma PutKeeps(qs: Queues, ss: Slots, ps: Pins, c: nat, lk: Leaks)
    requires Covered(qs, ss, ps, Some(c), lk) && Wired(qs, ss, ps) && c in qs
    requires qs[c].ref == 1 ==> Allocated(qs[c]) >= 0
    ensures Covered(Put(qs, c), ss, ps, qs[c].next, lk) && Wired(Put(qs, c), ss, ps)
  {
    var qs' := qs[c := qs[c].(ref := qs[c].ref - 1)];
    DropCovered(qs, ss, ps, c, lk);
    DropWired(qs, ss, ps, c);
    if qs[c].ref == 1 {
      assert CoveredAt(qs, ss, ps, Some(c), lk, c);
      assert CoveredAt(qs', ss, ps, qs[c].next, lk, c);
      FreeCovered(qs', ss, ps, c, qs[c].next, lk);
      assert qs' - {c} == qs - {c};
    }
  }

  lemma PutKeepsRest(qs: Queues, rs: Requests, rank: map<nat, nat>, top: nat, c: nat)
    requires Ranked(qs, rank, top) && Counted(qs, rs) && c in qs
    requires qs[c].ref == 1 ==> Allocated(qs[c]) <= 0
    ensures Ranked(Put(qs, c), rank, top) && Counted(Put(qs, c), rs)
  {
    if qs[c].ref == 1 {
      FreeCounted(qs, rs, c);
    }
  }

  ghost predicate Linked(qs: Queues, ss: Slots, ps: Pins, rank: map<nat, nat>, top: nat, plus: Option<nat>,
                         lk: Leaks) {
    Covered(qs, ss, ps, plus, lk) && Wired(qs, ss, ps) && Ranked(qs, rank, top)
  }

  ghost predicate Sound(qs: Queues, ss: Slots, ps: Pins, rs: Requests, rank: map<nat, nat>, top: nat,
                        plus: Option<nat>, lk: Leaks) {
    Linked(qs, ss, ps, rank, top, plus, lk) && Counted(qs, rs) && Referenced(qs)
  }

  /** The checks on entry to cfq_put_queue and before it frees. */
  lemma MayPut(qs: Queues, ss: Slots, ps: Pins, rs: Requests, c: nat, lk: Leaks)
    requires Covered(qs, ss, ps, Some(c), lk) && Counted(qs, rs) && c in qs
    ensures qs[c].ref > 0 && (qs[c].ref == 1 ==> Allocated(qs[c]) == 0)
    ensures ProcessRefs(qs[c]) > 0
  {
    IncomingBoundsOf(qs, ss, ps, Some(c), lk, c);
    assert CoveredAt(qs, ss, ps, Some(c), lk, c);
  }

  lemma IncomingBoundsOf(qs: Queues, ss: Slots, ps: Pins, plus: Option<nat>, lk: Leaks, q: nat)
    requires Covered(qs, ss, ps, plus, lk)
    ensures Incoming(qs, q) >= 0 && forall p :: p in qs ==> ProcessRefs(qs[p]) >= 0 && Part(qs[p], q) <= Incoming(qs, q)
  {
    forall p | p in qs
      ensures ProcessRefs(qs[p]) >= 0
    {
      assert CoveredAt(qs, ss, ps, plus, lk, p);
    }
    IncomingBounds(qs, q);
  }

  /** Ahead of a queue with processes is a live queue with at least as many. */
  lemma AheadIsAlive(qs: Queues, ss: Slots, ps: Pins, plus: Option<nat>, lk: Leaks, q: nat)
    requires Covered(qs, ss, ps, plus, lk) && Wired(qs, ss, ps)
    requires q in qs && ProcessRefs(qs[q]) > 0 && qs[q].next.Some?
    ensures qs[q].next.value in qs && qs[qs[q].next.value].sync
    ensures ProcessRefs(qs[qs[q].next.value]) >= ProcessRefs(qs[q])
  {
    var n := qs[q].next.value;
    IncomingBoundsOf(qs, ss, ps, plus, lk, n);
    assert CoveredAt(qs, ss, ps, plus, lk, n);
    assert Part(qs[q], n) == ProcessRefs(qs[q]);
  }

  lemma PutSound(qs: Queues, ss: Slots, ps: Pins, rs: Requests, rank: map<nat, nat>, top: nat, c: nat, lk: Leaks)
    requires Sound(qs, ss, ps, rs, rank, top, Some(c), lk) && c in qs
    ensures qs[c].ref > 0 && (qs[c].ref == 1 ==> Allocated(qs[c]) == 0)
    ensures Sound(Put(qs, c), ss, ps, rs, rank, top, qs[c].next, lk)
    ensures qs[c].next.Some? ==>
              && qs[c].next.value in qs && qs[c].next.value in Put(qs, c)
              && qs[qs[c].next.value].sync && qs[c].next != Some(c)
  {
    MayPut(qs, ss, ps, rs, c, lk);
    PutKeeps(qs, ss, ps, c, lk);
    PutKeepsRest(qs, rs, rank, top, c);
    PutReferenced(qs, c);
    if qs[c].next.Some? {
      AheadIsAlive(qs, ss, ps, Some(c), lk, c);
    }
    hide Covered, Wired, Counted, Referenced;
  }

  lemma PutReferenced(qs: Queues, c: nat)
    requires Referenced(qs) && c in qs
    ensures Referenced(Put(qs, c))
  {
  }

  lemma SyncSlotKept(qs: Queues, ss: Slots, ps: Pins, cic: nat)
    requires Wired(qs, ss, ps)
    ensures Slot(cic, true) in ss ==> ss[Slot(cic, true)] in qs && qs[ss[Slot(cic, true)]].sync
  {
  }

  lemma SameNextOfSlot(qs: Queues, ss: Slots, qs': Queues, ss': Slots, k: Slot)
    requires SameSync(qs, qs') && (k in ss ==> ss[k] in qs && qs[ss[k]].sync)
    requires (k in ss <==> k in ss') && (k in ss ==> ss[k] == ss'[k])
    ensures NextOfSlot(qs', ss', k) == NextOfSlot(qs, ss, k)
  {
  }

  lemma PutAsync(qs: Queues, c: nat)
    requires c in qs && !qs[c].sync
    ensures SameSync(qs, Put(qs, c))
  {
  }

  lemma PutElsewhereSame(qs: Queues, c: nat, q: nat)
    requires c in qs && q in qs && q != c
    ensures q in Put(qs, c) && Put(qs, c)[q] == qs[q]
  {
  }

  function Leak(lk: Leaks, n: nat): Leaks {
    lk[n := Leaked(lk, n) + 1]
  }

  /** A reference nobody will drop is a leak, but never a fault. */
  lemma ForgetHeld(qs: Queues, ss: Slots, ps: Pins, n: nat, lk: Leaks)
    requires Covered(qs, ss, ps, Some(n), lk) && n in qs
    ensures Covered(qs, ss, ps, None, Leak(lk, n))
  {
    forall q | q in qs
      ensures CoveredAt(qs, ss, ps, None, Leak(lk, n), q)
    {
      assert CoveredAt(qs, ss, ps, Some(n), lk, q);
    }
  }

  /** A queue with a leak is live, with a process reference nothing accounts for. */
  lemma LeakIsLive(qs: Queues, ss: Slots, ps: Pins, plus: Option<nat>, lk: Leaks, q: nat)
    requires Covered(qs, ss, ps, plus, lk) && Leaked(lk, q) > 0
    ensures q in qs && ProcessRefs(qs[q]) >= Claims(qs, ss, ps, q) + Leaked(lk, q)
  {
    assert CoveredAt(qs, ss, ps, plus, lk, q);
  }

  /** What leaked stays leaked. */
  ghost predicate Persists(lk: Leaks, lk': Leaks) {
    forall q :: Leaked(lk, q) <= Leaked(lk', q)
  }

  lemma DropSlot(qs: Queues, ss: Slots, ps: Pins, k: Slot, lk: Leaks)
    requires Covered(qs, ss, ps, None, lk) && Wired(qs, ss, ps) && k in ss
    ensures Covered(qs, ss - {k}, ps, Some(ss[k]), lk) && Wired(qs, ss - {k}, ps)
  {
    forall q | q in qs
      ensures CoveredAt(qs, ss - {k}, ps, Some(ss[k]), lk, q)
    {
      assert CoveredAt(qs, ss, ps, None, lk, q);
      CountDelete(ss, k, q);
    }
  }

  lemma TakeSlot(qs: Queues, ss: Slots, ps: Pins, k: Slot, q: nat, lk: Leaks)
    requires Covered(qs, ss, ps, Some(q), lk) && Wired(qs, ss, ps) && k !in ss
    requires q in qs && qs[q].sync == k.sync
    ensures Covered(qs, ss[k := q], ps, None, lk) && Wired(qs, ss[k := q], ps)
  {
    TakeSlotCovered(qs, ss, ps, k, q, lk);
    TakeSlotWired(qs, ss, ps, k, q);
    hide Covered, Wired;
  }

  lemma TakeSlotCovered(qs: Queues, ss: Slots, ps: Pins, k: Slot, q: nat, lk: Leaks)
    requires Covered(qs, ss, ps, Some(q), lk) && k !in ss
    ensures Covered(qs, ss[k := q], ps, None, lk)
  {
    hide Incoming, CountOf;
    forall o | o in qs
      ensures CoveredAt(qs, ss[k := q], ps, None, lk, o)
    {
      assert CoveredAt(qs, ss, ps, Some(q), lk, o);
      CountInsert(ss, k, q, o);
    }
  }

  lemma TakeSlotWired(qs: Queues, ss: Slots, ps: Pins, k: Slot, q: nat)
    requires Wired(qs, ss, ps) && q in qs && qs[q].sync == k.sync
    ensures Wired(qs, ss[k := q], ps)
  {
  }

  lemma DropPin(qs: Queues, ss: Slots, ps: Pins, k: AsyncKey, lk: Leaks)
    requires Covered(qs, ss, ps, None, lk) && Wired(qs, ss, ps) && k in ps
    ensures Covered(qs, ss, ps - {k}, Some(ps[k]), lk) && Wired(qs, ss, ps - {k})
  {
    forall q | q in qs
      ensures CoveredAt(qs, ss, ps - {k}, Some(ps[k]), lk, q)
    {
      assert CoveredAt(qs, ss, ps, None, lk, q);
      CountDelete(ps, k, q);
    }
  }

  lemma TakePin(qs: Queues, ss: Slots, ps: Pins, k: AsyncKey, q: nat, lk: Leaks)
    requires Covered(qs, ss, ps, Some(q), lk) && Wired(qs, ss, ps) && k !in ps
    requires q in qs && !qs[q].sync
    ensures Covered(qs, ss, ps[k := q], None, lk) && Wired(qs, ss, ps[k := q])
  {
    TakePinCovered(qs, ss, ps, k, q, lk);
    TakePinWired(qs, ss, ps, k, q);
    hide Covered, Wired;
  }

  lemma TakePinCovered(qs: Queues, ss: Slots, ps: Pins, k: AsyncKey, q: nat, lk: Leaks)
    requires Covered(qs, ss, ps, Some(q), lk) && k !in ps
    ensures Covered(qs, ss, ps[k := q], None, lk)
  {
    hide Incoming, CountOf;
    forall o | o in qs
      ensures CoveredAt(qs, ss, ps[k := q], None, lk, o)
    {
      assert CoveredAt(qs, ss, ps, Some(q), lk, o);
      CountInsert(ps, k, q, o);
    }
  }

  lemma TakePinWired(qs: Queues, ss: Slots, ps: Pins, k: AsyncKey, q: nat)
    requires Wired(qs, ss, ps) && q in qs && !qs[q].sync
    ensures Wired(qs, ss, ps[k := q])
  {
  }

  /** A change that leaves a queue's process references, link and kind alone. */
  lemma SameLinks(qs: Queues, ss: Slots, ps: Pins, rank: map<nat, nat>, top: nat, plus: Option<nat>, lk: Leaks,
                  q: nat, x: CfqQueue)
    requires Linked(qs, ss, ps, rank, top, plus, lk) && q in qs
    requires x.next == qs[q].next && x.sync == qs[q].sync && ProcessRefs(x) == ProcessRefs(qs[q])
    ensures Linked(qs[q := x], ss, ps, rank, top, plus, lk)
  {
    SameCovered(qs, ss, ps, plus, lk, q, x);
    SameWired(qs, ss, ps, q, x);
    hide Covered, Wired;
  }

  lemma SameCovered(qs: Queues, ss: Slots, ps: Pins, plus: Option<nat>, lk: Leaks, q: nat, x: CfqQueue)
    requires Covered(qs, ss, ps, plus, lk) && q in qs
    requires x.next == qs[q].next && ProcessRefs(x) == ProcessRefs(qs[q])
    ensures Covered(qs[q := x], ss, ps, plus, lk)
  {
    forall o | o in qs
      ensures CoveredAt(qs[q := x], ss, ps, plus, lk, o)
    {
      assert CoveredAt(qs, ss, ps, plus, lk, o);
      IncomingUpdate(qs, o, q, x);
    }
  }

  lemma SameWired(qs: Queues, ss: Slots, ps: Pins, q: nat, x: CfqQueue)
    requires Wired(qs, ss, ps) && q in qs
    requires x.next == qs[q].next && x.sync == qs[q].sync && ProcessRefs(x) == ProcessRefs(qs[q])
    ensures Wired(qs[q := x], ss, ps)
  {
    var qs' := qs[q := x];
    assert forall o :: o in qs ==> qs'[o].next == qs[o].next && qs'[o].sync == qs[o].sync
                                   && ProcessRefs(qs'[o]) == ProcessRefs(qs[o]);
    forall o | o in qs' && qs'[o].next.Some? && ProcessRefs(qs'[o]) > 0
      ensures qs'[o].next.value in qs' && qs'[qs'[o].next.value].sync
    {
      assert qs[o].next.value in qs && qs[qs[o].next.value].sync;
    }
  }

  /** One more reference on a queue at the end of its chain, held by the running handler. */
  lemma TakeRef(qs: Queues, ss: Slots, ps: Pins, rank: map<nat, nat>, top: nat, lk: Leaks, q: nat)
    requires Linked(qs, ss, ps, rank, top, None, lk) && q in qs && qs[q].next.None?
    ensures Linked(qs[q := qs[q].(ref := qs[q].ref + 1)], ss, ps, rank, top, Some(q), lk)
  {
    TakeRefCovered(qs, ss, ps, lk, q);
    hide Covered;
    TakeRefWired(qs, ss, ps, q);
    hide Wired;
  }

  lemma TakeRefCovered(qs: Queues, ss: Slots, ps: Pins, lk: Leaks, q: nat)
    requires Covered(qs, ss, ps, None, lk) && q in qs && qs[q].next.None?
    ensures Covered(qs[q := qs[q].(ref := qs[q].ref + 1)], ss, ps, Some(q), lk)
  {
    var x := qs[q].(ref := qs[q].ref + 1);
    forall o | o in qs
      ensures CoveredAt(qs[q := x], ss, ps, Some(q), lk, o)
    {
      assert CoveredAt(qs, ss, ps, None, lk, o);
      IncomingUpdate(qs, o, q, x);
    }
  }

  lemma TakeRefWired(qs: Queues, ss: Slots, ps: Pins, q: nat)
    requires Wired(qs, ss, ps) && q in qs && qs[q].next.None?
    ensures Wired(qs[q := qs[q].(ref := qs[q].ref + 1)], ss, ps)
  {
  }

  /** A new queue, at an address that a link of a dead-ended queue may still name. */
  lemma NewQueueLinked(qs: Queues, ss: Slots, ps: Pins, rank: map<nat, nat>, top: nat, lk: Leaks, q: nat, x: CfqQueue)
    requires Linked(qs, ss, ps, rank, top, None, lk) && q !in qs
    requires x.ref == 1 && x.readRqs == 0 && x.writeRqs == 0 && x.next.None?
    ensures Linked(qs[q := x], ss, ps, rank[q := top + 1], top + 1, Some(q), lk)
  {
    NewQueueCovered(qs, ss, ps, lk, q, x);
    NewQueueWired(qs, ss, ps, q, x);
    hide Covered, Wired;
  }

  lemma NewQueueCovered(qs: Queues, ss: Slots, ps: Pins, lk: Leaks, q: nat, x: CfqQueue)
    requires Covered(qs, ss, ps, None, lk) && Wired(qs, ss, ps) && q !in qs
    requires ProcessRefs(x) == 1 && x.next.None?
    ensures Covered(qs[q := x], ss, ps, Some(q), lk)
  {
    NoClaims(qs, ss, ps, lk, q);
    hide Wired;
    var qs' := qs[q := x];
    forall o | o in qs'
      ensures CoveredAt(qs', ss, ps, Some(q), lk, o)
    {
      IncomingInsert(qs, o, q, x);
      if o != q {
        assert CoveredAt(qs, ss, ps, None, lk, o);
      }
    }
  }

  lemma NewQueueWired(qs: Queues, ss: Slots, ps: Pins, q: nat, x: CfqQueue)
    requires Wired(qs, ss, ps) && q !in qs && x.next.None?
    ensures Wired(qs[q := x], ss, ps)
  {
    var qs' := qs[q := x];
    forall o | o in qs' && qs'[o].next.Some? && ProcessRefs(qs'[o]) > 0
      ensures qs'[o].next.value in qs' && qs'[qs'[o].next.value].sync
    {
      assert o in qs && qs'[o] == qs[o];
      assert qs[o].next.value in qs;
    }
  }

  lemma NoClaims(qs: Queues, ss: Slots, ps: Pins, lk: Leaks, q: nat)
    requires Covered(qs, ss, ps, None, lk) && Wired(qs, ss, ps) && q !in qs
    ensures Claims(qs, ss, ps, q) == 0
  {
    assert (set k | k in ss && ss[k] == q) == {};
    assert (set k | k in ps && ps[k] == q) == {};
    forall p | p in qs
      ensures Part(qs[p], q) == 0
    {
      assert CoveredAt(qs, ss, ps, None, lk, p);
    }
    NothingIncoming(qs, q);
  }

  lemma {:induction false} NothingIncoming(qs: Queues, q: nat)
    requires forall p :: p in qs ==> Part(qs[p], q) == 0
    ensures Incoming(qs, q) == 0
    decreases |qs|
  {
    if qs != map[] {
      var o :| o in qs && Incoming(qs, q) == Part(qs[o], q) + Incoming(qs - {o}, q);
      NothingIncoming(qs - {o}, q);
      assert Part(qs[o], q) == 0;
    }
  }

  /** Scheduling a to merge into b moves all of a's process references onto b as well. */
  function Schedule(qs: Queues, a: nat, b: nat): (r: Queues)
    requires a in qs && b in qs && a != b
    ensures r.Keys == qs.Keys
  {
    qs[a := qs[a].(next := Some(b))][b := qs[b].(ref := qs[b].ref + ProcessRefs(qs[a]))]
  }

  function Raise(rank: map<nat, nat>, a: nat, b: nat): map<nat, nat>
    requires a in rank && b in rank
  {
    rank[b := if rank[b] > rank[a] then rank[b] else rank[a] + 1]
  }

  lemma ScheduleLinked(qs: Queues, ss: Slots, ps: Pins, rank: map<nat, nat>, top: nat, lk: Leaks, a: nat, b: nat)
    requires Linked(qs, ss, ps, rank, top, None, lk) && a in qs && b in qs && a != b
    requires qs[a].next.None? && qs[b].next.None? && qs[a].sync && qs[b].sync
    ensures Linked(Schedule(qs, a, b), ss, ps, Raise(rank, a, b), top + 1, None, lk)
  {
    assert CoveredAt(qs, ss, ps, None, lk, a);
    ScheduleCovered(qs, ss, ps, lk, a, b);
    ScheduleRanked(qs, rank, top, a, b);
    ScheduleWired(qs, ss, ps, a, b);
    hide Covered, Wired, Schedule;
  }

  lemma ScheduleCovered(qs: Queues, ss: Slots, ps: Pins, lk: Leaks, a: nat, b: nat)
    requires Covered(qs, ss, ps, None, lk) && a in qs && b in qs && a != b
    requires qs[a].next.None? && qs[b].next.None?
    ensures Covered(Schedule(qs, a, b), ss, ps, None, lk)
  {
    var qs1 := qs[a := qs[a].(next := Some(b))];
    var qs' := Schedule(qs, a, b);
    forall o | o in qs
      ensures CoveredAt(qs', ss, ps, None, lk, o)
    {
      assert CoveredAt(qs, ss, ps, None, lk, o);
      assert CoveredAt(qs, ss, ps, None, lk, a);
      IncomingUpdate(qs, o, a, qs1[a]);
      IncomingUpdate(qs1, o, b, qs'[b]);
    }
  }

  lemma ScheduleWired(qs: Queues, ss: Slots, ps: Pins, a: nat, b: nat)
    requires Wired(qs, ss, ps) && a in qs && b in qs && a != b && ProcessRefs(qs[a]) >= 0
    requires qs[a].next.None? && qs[b].next.None? && qs[a].sync && qs[b].sync
    ensures Wired(Schedule(qs, a, b), ss, ps)
  {
    var qs' := Schedule(qs, a, b);
    assert forall q :: q in qs' <==> q in qs;
    assert forall q :: q in qs ==> qs'[q].sync == qs[q].sync;
    forall q | q in qs' && qs'[q].next.Some? && ProcessRefs(qs'[q]) > 0
      ensures qs'[q].next.value in qs' && qs'[qs'[q].next.value].sync
    {
      if q != a {
        assert qs[q].next == qs'[q].next && ProcessRefs(qs[q]) == ProcessRefs(qs'[q]);
      }
    }
  }

  lemma ScheduleRanked(qs: Queues, rank: map<nat, nat>, top: nat, a: nat, b: nat)
    requires Ranked(qs, rank, top) && a in qs && b in qs && a != b && qs[b].next.None?
    ensures Ranked(Schedule(qs, a, b), Raise(rank, a, b), top + 1)
  {
    var qs' := Schedule(qs, a, b);
    forall q | q in qs' && qs'[q].next.Some? && qs'[q].next.value in qs'
      ensures Raise(rank, a, b)[q] < Raise(rank, a, b)[qs'[q].next.value]
    {
      if q != a {
        assert q != b && qs[q].next == qs'[q].next;
      }
    }
  }

  // ---------- where a chain ends ----------

  /** The last live queue of the chain from q. */
  ghost function Tail(qs: Queues, rank: map<nat, nat>, top: nat, q: nat): (t: nat)
    requires Ranked(qs, rank, top) && q in qs
    ensures t in qs
    decreases top - rank[q]
  {
    if qs[q].next.Some? && qs[q].next.value in qs then Tail(qs, rank, top, qs[q].next.value) else q
  }

  /** A chain that starts at a queue with processes runs through live queues to a real end. */
  lemma {:induction false} ChainIsLive(qs: Queues, ss: Slots, ps: Pins, rank: map<nat, nat>, top: nat,
                                       plus: Option<nat>, lk: Leaks, q: nat)
    requires Linked(qs, ss, ps, rank, top, plus, lk) && q in qs && ProcessRefs(qs[q]) > 0
    ensures var t := Tail(qs, rank, top, q);
            t in qs && qs[t].next.None? && ProcessRefs(qs[t]) >= ProcessRefs(qs[q]) && (qs[q].sync ==> qs[t].sync)
    decreases top - rank[q]
  {
    if qs[q].next.Some? {
      AheadIsAlive(qs, ss, ps, plus, lk, q);
      ChainIsLive(qs, ss, ps, rank, top, plus, lk, qs[q].next.value);
    }
  }

  /** Nothing that could still raise its count refers to a queue without process references. */
  lemma DeadEndIsUnreferenced(qs: Queues, ss: Slots, ps: Pins, lk: Leaks, q: nat)
    requires Covered(qs, ss, ps, None, lk) && q in qs && ProcessRefs(qs[q]) == 0
    ensures forall k :: k in ss ==> ss[k] != q
    ensures forall k :: k in ps ==> ps[k] != q
    ensures forall p :: p in qs && qs[p].next == Some(q) ==> ProcessRefs(qs[p]) == 0
  {
    IncomingBoundsOf(qs, ss, ps, None, lk, q);
    assert CoveredAt(qs, ss, ps, None, lk, q);
    CountZero(ss, q);
    CountZero(ps, q);
    forall p | p in qs && qs[p].next == Some(q)
      ensures ProcessRefs(qs[p]) == 0
    {
      assert Part(qs[p], q) == ProcessRefs(qs[p]);
    }
  }

  lemma {:induction false} TailAfterForward(qs: Queues, rank: map<nat, nat>, top: nat, a: nat, t: nat, c: nat)
    requires Ranked(qs, rank, top) && a in qs && t in qs && c in qs && a != t
    requires qs[a].next.None? && qs[t].next.None? && Tail(qs, rank, top, c) == t
    ensures Ranked(Schedule(qs, a, t), Raise(rank, a, t), top + 1)
    ensures Tail(Schedule(qs, a, t), Raise(rank, a, t), top + 1, c) == t
    decreases top - rank[c]
  {
    ScheduleRanked(qs, rank, top, a, t);
    if c != t {
      TailAfterForward(qs, rank, top, a, t, qs[c].next.value);
    }
  }

  lemma {:induction false} TailAfterBackward(qs: Queues, rank: map<nat, nat>, top: nat, a: nat, t: nat, c: nat)
    requires Ranked(qs, rank, top) && a in qs && t in qs && c in qs && a != t
    requires qs[a].next.None? && qs[t].next.None? && Tail(qs, rank, top, c) == t
    ensures Ranked(Schedule(qs, t, a), Raise(rank, t, a), top + 1)
    ensures Tail(Schedule(qs, t, a), Raise(rank, t, a), top + 1, c) == a
    decreases top - rank[c]
  {
    ScheduleRanked(qs, rank, top, t, a);
    if c != t {
      TailAfterBackward(qs, rank, top, a, t, qs[c].next.value);
    }
  }

  lemma EndsAtItself(qs: Queues, rank: map<nat, nat>, top: nat, a: nat)
    requires Ranked(qs, rank, top) && a in qs && qs[a].next.None?
    ensures Tail(qs, rank, top, a) == a
  {
  }

  /** Scheduling a merge at the end of b's chain, either way, makes the chains of a and b meet. */
  lemma ChainsConverge(qs: Queues, rank: map<nat, nat>, top: nat, a: nat, b: nat)
    requires Ranked(qs, rank, top) && a in qs && b in qs && qs[a].next.None?
    requires var t := Tail(qs, rank, top, b); t != a && qs[t].next.None?
    ensures a in rank && Tail(qs, rank, top, b) in rank
    ensures var t := Tail(qs, rank, top, b);
            && Ranked(Schedule(qs, a, t), Raise(rank, a, t), top + 1)
            && Tail(Schedule(qs, a, t), Raise(rank, a, t), top + 1, a) == t
            && Tail(Schedule(qs, a, t), Raise(rank, a, t), top + 1, b) == t
            && Ranked(Schedule(qs, t, a), Raise(rank, t, a), top + 1)
            && Tail(Schedule(qs, t, a), Raise(rank, t, a), top + 1, a) == a
            && Tail(Schedule(qs, t, a), Raise(rank, t, a), top + 1, b) == a
  {
    var t := Tail(qs, rank, top, b);
    TailAfterForward(qs, rank, top, a, t, b);
    TailAfterForward(qs, rank, top, a, t, t);
    TailAfterBackward(qs, rank, top, a, t, b);
  }

  // ---------- facts the handlers use ----------

  lemma SlotFacts(qs: Queues, ss: Slots, ps: Pins, k: Slot)
    requires Wired(qs, ss, ps) && k in ss
    ensures ss[k] in qs && qs[ss[k]].sync == k.sync && (!k.sync ==> qs[ss[k]].next.None?)
  {
  }

  lemma PinFacts(qs: Queues, ss: Slots, ps: Pins, k: AsyncKey)
    requires Wired(qs, ss, ps) && k in ps
    ensures ps[k] in qs && !qs[ps[k]].sync && qs[ps[k]].next.None?
  {
  }

  lemma RequestFacts(qs: Queues, rs: Requests, r: nat)
    requires Counted(qs, rs) && r in rs
    ensures rs[r].0 in qs
    ensures (if rs[r].1 == READ then qs[rs[r].0].readRqs else qs[rs[r].0].writeRqs) > 0
    ensures qs[rs[r].0].readRqs >= 0 && qs[rs[r].0].writeRqs >= 0
  {
    CountPositive(rs, r);
    assert rs[r] == (rs[r].0, rs[r].1);
  }

  lemma SameCounted(qs: Queues, rs: Requests, q: nat, x: CfqQueue)
    requires Counted(qs, rs) && q in qs && x.readRqs == qs[q].readRqs && x.writeRqs == qs[q].writeRqs
    ensures Counted(qs[q := x], rs)
  {
  }

  /** The walk in cfq_put_cooperator starts with the queue ahead of q, holding one reference there. */
  lemma CooperatorStart(qs: Queues, ss: Slots, ps: Pins, rs: Requests, rank: map<nat, nat>, top: nat, q: nat, lk: Leaks)
    requires Sound(qs, ss, ps, rs, rank, top, Some(q), lk) && q in qs
    ensures var v := qs[q := qs[q].(ref := qs[q].ref - 1)];
            Covered(v, ss, ps, qs[q].next, lk) && Wired(v, ss, ps)
    ensures Ranked(qs, rank, top) && Counted(qs, rs) && Referenced(qs)
    ensures qs[q].ref > 0 && q in rank && rank[q] <= top
    ensures qs[q].next.Some? ==>
              var n := qs[q].next.value; n in qs && n in rank && rank[q] < rank[n] <= top
  {
    DropCovered(qs, ss, ps, q, lk);
    DropWired(qs, ss, ps, q);
    MayPut(qs, ss, ps, rs, q, lk);
    if qs[q].next.Some? {
      AheadIsAlive(qs, ss, ps, Some(q), lk, q);
    }
    hide Covered, Wired, Counted;
  }

  /** One step of the walk in cfq_put_cooperator, while q still has its own reference to drop. */
  lemma CooperatorStep(qs: Queues, ss: Slots, ps: Pins, rs: Requests, q: nat, x: CfqQueue, c: nat, lk: Leaks)
    requires q in qs && c in qs && c != q && x == qs[q].(ref := qs[q].ref - 1)
    requires Covered(qs[q := x], ss, ps, Some(c), lk) && Wired(qs[q := x], ss, ps) && Counted(qs, rs)
    ensures qs[c].ref > 0 && (qs[c].ref == 1 ==> Allocated(qs[c]) == 0) && ProcessRefs(qs[c]) > 0
    ensures Covered(Put(qs, c)[q := x], ss, ps, qs[c].next, lk) && Wired(Put(qs, c)[q := x], ss, ps)
  {
    var v := qs[q := x];
    SameCounted(qs, rs, q, x);
    PutElsewhere(qs, q, x, c);
    hide Covered, Wired, Counted, Put;
    MayPut(v, ss, ps, rs, c, lk);
    PutKeeps(v, ss, ps, c, lk);
  }

  lemma PutElsewhere(qs: Queues, q: nat, x: CfqQueue, c: nat)
    requires q in qs && c in qs && c != q
    ensures Put(qs[q := x], c) == Put(qs, c)[q := x]
  {
    if qs[c].ref == 1 {
      assert qs[q := x] - {c} == (qs - {c})[q := x];
    }
  }

  lemma CooperatorRest(qs: Queues, ss: Slots, ps: Pins, rs: Requests, rank: map<nat, nat>, top: nat,
                       q: nat, x: CfqQueue, c: nat, lk: Leaks)
    requires Ranked(qs, rank, top) && Counted(qs, rs) && Referenced(qs)
    requires q in qs && c in qs && rank[q] < rank[c] && x == qs[q].(ref := qs[q].ref - 1)
    requires Covered(qs[q := x], ss, ps, Some(c), lk) && Wired(qs[q := x], ss, ps)
    requires ProcessRefs(qs[c]) > 0 && (qs[c].ref == 1 ==> Allocated(qs[c]) == 0)
    ensures Ranked(Put(qs, c), rank, top) && Counted(Put(qs, c), rs) && Referenced(Put(qs, c))
    ensures q in Put(qs, c) && Put(qs, c)[q] == qs[q]
    ensures qs[c].next.Some? ==>
              var n := qs[c].next.value; n in Put(qs, c) && n in rank && rank[c] < rank[n] <= top
  {
    hide Covered, Wired, Counted;
    PutKeepsRest(qs, rs, rank, top, c);
    if qs[c].next.Some? {
      AheadIsAlive(qs[q := x], ss, ps, Some(c), lk, c);
    }
  }

  /** Dropping the reference that the walk was for. */
  lemma ReleaseHeld(qs: Queues, ss: Slots, ps: Pins, rs: Requests, rank: map<nat, nat>, top: nat, q: nat, lk: Leaks)
    requires q in qs && Ranked(qs, rank, top) && Counted(qs, rs) && Referenced(qs)
    requires var v := qs[q := qs[q].(ref := qs[q].ref - 1)]; Covered(v, ss, ps, None, lk) && Wired(v, ss, ps)
    ensures qs[q].ref == 1 ==> Allocated(qs[q]) == 0
    ensures Sound(Put(qs, q), ss, ps, rs, rank, top, None, lk)
  {
    var v := qs[q := qs[q].(ref := qs[q].ref - 1)];
    assert CoveredAt(v, ss, ps, None, lk, q);
    PutKeepsRest(qs, rs, rank, top, q);
    if qs[q].ref == 1 {
      FreeCovered(v, ss, ps, q, None, lk);
      assert v - {q} == qs - {q};
    }
  }

  lemma AllocateSound(qs: Queues, ss: Slots, ps: Pins, rs: Requests, rank: map<nat, nat>, top: nat, lk: Leaks,
                      q: nat, r: nat, rw: Dir)
    requires Sound(qs, ss, ps, rs, rank, top, None, lk) && q in qs && r !in rs
    ensures Sound(qs[q := WithRequest(qs[q], rw)], ss, ps, rs[r := (q, rw)], rank, top, None, lk)
  {
    var x := WithRequest(qs[q], rw);
    SameLinks(qs, ss, ps, rank, top, None, lk, q, x);
    AllocateCounted(qs, rs, q, r, rw, x);
    AllocateReferenced(qs, q, x);
    hide Linked, Counted, Referenced;
  }

  lemma AllocateReferenced(qs: Queues, q: nat, x: CfqQueue)
    requires Referenced(qs) && x.ref > 0
    ensures Referenced(qs[q := x])
  {
  }

  lemma AllocateCounted(qs: Queues, rs: Requests, q: nat, r: nat, rw: Dir, x: CfqQueue)
    requires Counted(qs, rs) && q in qs && r !in rs
    requires x.readRqs == Allocate(qs[q], rw, 1).readRqs && x.writeRqs == Allocate(qs[q], rw, 1).writeRqs
    ensures Counted(qs[q := x], rs[r := (q, rw)])
  {
    forall o | o in qs
      ensures qs[q := x][o].readRqs == CountOf(rs[r := (q, rw)], (o, READ))
      ensures qs[q := x][o].writeRqs == CountOf(rs[r := (q, rw)], (o, WRITE))
    {
      CountInsert(rs, r, (q, rw), (o, READ));
      CountInsert(rs, r, (q, rw), (o, WRITE));
    }
  }

  lemma ReleaseCounted(qs: Queues, rs: Requests, r: nat, z: CfqQueue)
    requires Counted(qs, rs) && r in rs
    requires rs[r].0 in qs
    requires z.readRqs == Allocate(qs[rs[r].0], rs[r].1, -1).readRqs
    requires z.writeRqs == Allocate(qs[rs[r].0], rs[r].1, -1).writeRqs
    ensures Counted(qs[rs[r].0 := z], rs - {r})
  {
    var q, rw := rs[r].0, rs[r].1;
    assert rs[r] == (q, rw);
    forall o | o in qs
      ensures qs[q := z][o].readRqs == CountOf(rs - {r}, (o, READ))
      ensures qs[q := z][o].writeRqs == CountOf(rs - {r}, (o, WRITE))
    {
      CountDelete(rs, r, (o, READ));
      CountDelete(rs, r, (o, WRITE));
    }
  }

  lemma ReleaseLinked(qs: Queues, ss: Slots, ps: Pins, rank: map<nat, nat>, top: nat, lk: Leaks, q: nat, y: CfqQueue)
    requires Linked(qs, ss, ps, rank, top, None, lk) && q in qs
    requires y.next == qs[q].next && y.sync == qs[q].sync && ProcessRefs(y) == ProcessRefs(qs[q]) + 1
    requires y.ref == 1 ==> Allocated(y) == 0
    ensures Linked(Put(qs[q := y], q), ss, ps, rank, top, None, lk)
  {
    var z := y.(ref := y.ref - 1);
    SameLinks(qs, ss, ps, rank, top, None, lk, q, z);
    PutAllocated(qs, q, y);
    hide Covered, Wired, Ranked, Put;
    if y.ref == 1 {
      FreeCovered(qs[q := z], ss, ps, q, None, lk);
      FreeRanked(qs[q := z], rank, top, q);
    }
  }

  lemma ReleaseCountedToo(qs: Queues, rs: Requests, r: nat, y: CfqQueue)
    requires Counted(qs, rs) && r in rs && rs[r].0 in qs && y == Allocate(qs[rs[r].0], rs[r].1, -1)
    requires y.ref == 1 ==> Allocated(y) == 0
    ensures Counted(Put(qs[rs[r].0 := y], rs[r].0), rs - {r})
  {
    var q := rs[r].0;
    var z := y.(ref := y.ref - 1);
    ReleaseCounted(qs, rs, r, z);
    PutAllocated(qs, q, y);
    hide Counted, Put;
    if y.ref == 1 {
      FreeCounted(qs[q := z], rs - {r}, q);
    }
  }

  /** A request gives back its allocation and its reference; the process references stay. */
  lemma ReleaseSound(qs: Queues, ss: Slots, ps: Pins, rs: Requests, rank: map<nat, nat>, top: nat, lk: Leaks, r: nat)
    requires Sound(qs, ss, ps, rs, rank, top, None, lk) && r in rs
    ensures rs[r].0 in qs
    ensures var q := rs[r].0; var qs1 := qs[q := Allocate(qs[q], rs[r].1, -1)];
            && qs1[q].ref > 0 && (qs1[q].ref == 1 ==> Allocated(qs1[q]) == 0)
            && Sound(Put(qs1, q), ss, ps, rs - {r}, rank, top, None, lk)
  {
    RequestFacts(qs, rs, r);
    var q := rs[r].0;
    var y := Allocate(qs[q], rs[r].1, -1);
    assert ProcessRefs(qs[q]) >= 0 && y.ref > 0 by { assert CoveredAt(qs, ss, ps, None, lk, q); }
    ReleaseReferenced(qs, q, y);
    hide Put, Counted, Referenced, Covered, Wired, Ranked;
    ReleaseLinked(qs, ss, ps, rank, top, lk, q, y);
    ReleaseCountedToo(qs, rs, r, y);
  }

  lemma FreeRanked(qs: Queues, rank: map<nat, nat>, top: nat, c: nat)
    requires Ranked(qs, rank, top)
    ensures Ranked(qs - {c}, rank, top)
  {
  }

  lemma ReleaseReferenced(qs: Queues, q: nat, y: CfqQueue)
    requires Referenced(qs) && y.ref > 0
    ensures Referenced(Put(qs[q := y], q))
  {
  }

  lemma PutAllocated(qs: Queues, q: nat, y: CfqQueue)
    requires q in qs
    ensures var z := y.(ref := y.ref - 1);
            Put(qs[q := y], q) == if y.ref == 1 then qs[q := z] - {q} else qs[q := z]
  {
    assert qs[q := y] - {q} == qs[q := y.(ref := y.ref - 1)] - {q};
  }

  lemma FreeCounted(qs: Queues, rs: Requests, c: nat)
    requires Counted(qs, rs) && c in qs && Allocated(qs[c]) <= 0
    ensures Counted(qs - {c}, rs)
  {
    CountZero(rs, (c, READ));
    CountZero(rs, (c, WRITE));
    forall r | r in rs
      ensures rs[r].0 != c
    {
      assert rs[r] == (rs[r].0, rs[r].1);
      assert rs[r].1 == READ || rs[r].1 == WRITE;
    }
  }

  lemma {:induction false} Above(s: set<nat>) returns (b: nat)
    ensures forall q :: q in s ==> q < b
  {
    b := 0;
    if s != {} {
      var x :| x in s;
      var c := Above(s - {x});
      assert forall q :: q in s ==> q == x || q in s - {x};
      b := if c > x then c else x + 1;
    }
  }

  lemma Known(qs: Queues, ss: Slots, ps: Pins, lk: Leaks, q: nat)
    requires Covered(qs, ss, ps, None, lk) && q in qs
    ensures ProcessRefs(qs[q]) >= 0
  {
    assert CoveredAt(qs, ss, ps, None, lk, q);
  }

  lemma ScheduleSound(qs: Queues, ss: Slots, ps: Pins, rs: Requests, rank: map<nat, nat>, top: nat, lk: Leaks,
                      a: nat, b: nat)
    requires Sound(qs, ss, ps, rs, rank, top, None, lk) && a in qs && b in qs && a != b
    requires qs[a].next.None? && qs[b].next.None? && qs[a].sync && qs[b].sync
    ensures Sound(Schedule(qs, a, b), ss, ps, rs, Raise(rank, a, b), top + 1, None, lk)
  {
    Known(qs, ss, ps, lk, a);
    ScheduleLinked(qs, ss, ps, rank, top, lk, a, b);
    var qs1 := qs[a := qs[a].(next := Some(b))];
    SameCounted(qs, rs, a, qs1[a]);
    SameCounted(qs1, rs, b, Schedule(qs, a, b)[b]);
    AllocateReferenced(qs, a, qs1[a]);
    AllocateReferenced(qs1, b, Schedule(qs, a, b)[b]);
    hide Linked, Counted;
  }

  lemma FlagKeepsRest(qs: Queues, rs: Requests, q: nat, x: CfqQueue)
    requires Counted(qs, rs) && Referenced(qs) && q in qs && x.ref == qs[q].ref
    requires x.readRqs == qs[q].readRqs && x.writeRqs == qs[q].writeRqs
    ensures Counted(qs[q := x], rs) && Referenced(qs[q := x])
  {
  }

  lemma MoreRefsKeepRest(qs: Queues, rs: Requests, q: nat)
    requires Counted(qs, rs) && Referenced(qs) && q in qs
    ensures var x := qs[q].(ref := qs[q].ref + 1); Counted(qs[q := x], rs) && Referenced(qs[q := x])
  {
  }

  lemma NewQueueKeepsRest(qs: Queues, rs: Requests, q: nat, x: CfqQueue)
    requires Counted(qs, rs) && Referenced(qs) && q !in qs && x.ref > 0 && x.readRqs == 0 && x.writeRqs == 0
    ensures Counted(qs[q := x], rs) && Referenced(qs[q := x])
  {
    assert (set r | r in rs && rs[r] == (q, READ)) == {};
    assert (set r | r in rs && rs[r] == (q, WRITE)) == {};
  }

  /** A queue as cfq_init_cfqq leaves it, with its first reference. */
  function NewQueue(sync: bool): CfqQueue {
    CfqQueue(1, 0, 0, None, sync, false, false)
  }

  /** The synchronous queues are left alone. */
  ghost predicate SameSync(qs: Queues, qs': Queues) {
    forall q :: q in qs && qs[q].sync ==> q in qs' && qs'[q] == qs[q]
  }

  /** The queue that the queue in slot k, if any, is scheduled to merge into. */
  function NextOfSlot(qs: Queues, ss: Slots, k: Slot): Option<nat> {
    if k in ss && ss[k] in qs then qs[ss[k]].next else None
  }

  /** Eight real-time, eight best-effort and one idle asynchronous queue per group. */
  const ASYNC_QUEUES := 17

  // ---------- the queues of a device ----------

  class CfqRefs {
    var queues: Queues
    var slots: Slots
    var pins: Pins
    var requests: Requests
    ghost var rank: map<nat, nat>
    ghost var top: nat
    /** The references left behind by handlers that dropped a slot without walking its chain. */
    ghost var leaked: Leaks

    ghost predicate Inv()
      reads this
    {
      Sound(queues, slots, pins, requests, rank, top, None, leaked)
    }

    constructor ()
      ensures Inv() && leaked == map[]
      ensures queues == map[] && slots == map[] && pins == map[] && requests == map[]
    {
      queues, slots, pins, requests := map[], map[], map[], map[];
      rank, top, leaked := map[], 0, map[];
    }

    /** cfq_put_queue: its BUG_ONs on the counts are asserts here. */
    method PutQueue(q: nat)
      requires q in queues && queues[q].ref > 0 && (queues[q].ref == 1 ==> Allocated(queues[q]) == 0)
      modifies `queues
      ensures queues == Put(old(queues), q)
    {
      assert queues[q].ref > 0;
      queues := queues[q := queues[q].(ref := queues[q].ref - 1)];
      if queues[q].ref != 0 {
        return;
      }
      assert Allocated(queues[q]) == 0;
      queues := queues - {q};
      assert queues == old(queues) - {q};
    }

    /**
     * cfq_put_cooperator for a queue q whose own reference is about to be dropped (`held` are
     * the slots that will remain): afterwards only that one reference is left over.
     */
    method PutCooperator(q: nat, ghost held: Slots)
      requires Sound(queues, held, pins, requests, rank, top, Some(q), leaked) && q in queues
      modifies `queues
      ensures q in queues && queues[q] == old(queues)[q]
      ensures queues[q].ref > 0 && (queues[q].ref == 1 ==> Allocated(queues[q]) == 0)
      ensures Sound(Put(queues, q), held, pins, requests, rank, top, None, leaked)
    {
      hide Covered, Wired, Counted, Referenced;
      ghost var x := queues[q].(ref := queues[q].ref - 1);
      CooperatorStart(queues, held, pins, requests, rank, top, q, leaked);
      var c := queues[q].next;
      hide Ranked, Put, ProcessRefs, Allocated, Sound;
      while c.Some?
        invariant q in queues && queues[q] == old(queues)[q]
        invariant Covered(queues[q := x], held, pins, c, leaked) && Wired(queues[q := x], held, pins)
        invariant Ranked(queues, rank, top) && Counted(queues, requests) && Referenced(queues)
        invariant c.Some? ==> c.value in queues && q in rank && c.value in rank && rank[q] < rank[c.value] <= top
        decreases if c.Some? then 1 + top - rank[c.value] else 0
      {
        // A chain that leads back to q would be reported here.
        assert c.value != q;
        var next := queues[c.value].next;
        CooperatorStep(queues, held, pins, requests, q, x, c.value, leaked);
        CooperatorRest(queues, held, pins, requests, rank, top, q, x, c.value, leaked);
        PutQueue(c.value);
        c := next;
      }
      ReleaseHeld(queues, held, pins, requests, rank, top, q, leaked);
    }

    /** The process owning slot k drops its queue: cfq_exit_cfqq and the clearing of the slot. */
    method ExitCfqq(k: Slot)
      requires Inv() && k in slots
      modifies `queues, `slots
      ensures Inv() && slots == old(slots) - {k}
    {
      hide Covered, Wired, Ranked, Counted, Referenced, Put;
      var q := slots[k];
      SlotFacts(queues, slots, pins, k);
      DropSlot(queues, slots, pins, k, leaked);
      PutCooperator(q, slots - {k});
      PutQueue(q);
      slots := slots - {k};
    }

    /** cfq_exit_icq. */
    method ExitIcq(cic: nat)
      requires Inv()
      modifies `queues, `slots
      ensures Inv() && slots == old(slots) - {Slot(cic, false), Slot(cic, true)}
    {
      hide Covered, Wired, Ranked, Counted, Referenced;
      if Slot(cic, false) in slots {
        ExitCfqq(Slot(cic, false));
      }
      if Slot(cic, true) in slots {
        ExitCfqq(Slot(cic, true));
      }
    }

    /**
     * cfq_setup_merge: the shorter-handed of a and the end of b's chain is scheduled to merge
     * into the other, unless one side has no process left or they are chained already.
     */
    method SetupMerge(a: nat, b: nat)
      requires Inv() && a in queues && b in queues && a != b
      requires queues[a].sync && queues[b].sync && queues[a].next.None?
      modifies `queues, `rank, `top
      ensures Inv()
      ensures var t, qs := Tail(old(queues), old(rank), old(top), b), old(queues);
              queues == if ProcessRefs(qs[a]) == 0 || ProcessRefs(qs[b]) == 0 || t == a then qs
                        else if ProcessRefs(qs[t]) >= ProcessRefs(qs[a]) then Schedule(qs, a, t)
                        else Schedule(qs, t, a)
      ensures ProcessRefs(old(queues)[a]) > 0 && ProcessRefs(old(queues)[b]) > 0 ==>
                a in queues && b in queues && Tail(queues, rank, top, a) == Tail(queues, rank, top, b)
    {
      hide Covered, Wired, Ranked, Counted, Referenced, Tail, Schedule, Raise;
      Known(queues, slots, pins, leaked, a);
      Known(queues, slots, pins, leaked, b);
      if ProcessRefs(queues[b]) == 0 {
        return;
      }
      ChainIsLive(queues, slots, pins, rank, top, None, leaked, b);
      var end := ChainEnd(a, b);
      if end.None? {
        EndsAtItself(queues, rank, top, a);
        return;
      }
      var c := end.value;
      var processRefs, newProcessRefs := ProcessRefs(queues[a]), ProcessRefs(queues[c]);
      if processRefs == 0 || newProcessRefs == 0 {
        return;
      }
      ChainsConverge(queues, rank, top, a, b);
      if newProcessRefs >= processRefs {
        ScheduleSound(queues, slots, pins, requests, rank, top, leaked, a, c);
        queues, rank, top := Schedule(queues, a, c), Raise(rank, a, c), top + 1;
      } else {
        ScheduleSound(queues, slots, pins, requests, rank, top, leaked, c, a);
        queues, rank, top := Schedule(queues, c, a), Raise(rank, c, a), top + 1;
      }
    }

    /** The walk in cfq_setup_merge along b's chain; None if it would meet a. */
    method ChainEnd(a: nat, b: nat) returns (end: Option<nat>)
      requires Inv() && a in queues && b in queues && a != b && queues[a].next.None? && ProcessRefs(queues[b]) > 0
      ensures end == if Tail(queues, rank, top, b) == a then None else Some(Tail(queues, rank, top, b))
    {
      hide Covered, Wired, Counted, Referenced;
      var c := b;
      while queues[c].next.Some?
        invariant c in queues && ProcessRefs(queues[c]) > 0 && c != a
        invariant Tail(queues, rank, top, c) == Tail(queues, rank, top, b)
        modifies {}
        decreases top - rank[c]
      {
        AheadIsAlive(queues, slots, pins, None, leaked, c);
        if queues[c].next.value == a {
          return None;
        }
        c := queues[c].next.value;
      }
      end := Some(c);
    }

    /** cfq_merge_cfqqs: the process moves on to the queue its own queue is scheduled to merge into. */
    method MergeCfqqs(k: Slot) returns (q: nat)
      requires Inv() && k in slots && slots[k] in queues && queues[slots[k]].next.Some?
      modifies `queues, `slots
      ensures Inv() && q in queues && Some(q) == old(queues)[old(slots)[k]].next
      ensures slots == old(slots)[k := q]
    {
      hide Covered, Wired, Ranked, Counted, Referenced, Put;
      var o := slots[k];
      SlotFacts(queues, slots, pins, k);
      q := queues[o].next.value;
      DropSlot(queues, slots, pins, k, leaked);
      PutSound(queues, slots - {k}, pins, requests, rank, top, o, leaked);
      PutElsewhereSame(queues, o, q);
      PutQueue(o);
      TakeSlot(queues, slots - {k}, pins, k, q, leaked);
      assert (slots - {k})[k := q] == slots[k := q];
      slots := slots[k := q];
      Flag(q, true, queues[q].splitCoop);
    }

    /** The cooperation flags of a queue; they have no part in the accounting. */
    method Flag(q: nat, coop: bool, splitCoop: bool)
      requires Inv() && q in queues
      modifies `queues
      ensures Inv() && queues == old(queues)[q := old(queues)[q].(coop := coop, splitCoop := splitCoop)]
    {
      hide Covered, Wired, Ranked, Counted, Referenced;
      var x := queues[q].(coop := coop, splitCoop := splitCoop);
      SameLinks(queues, slots, pins, rank, top, None, leaked, q, x);
      FlagKeepsRest(queues, requests, q, x);
      queues := queues[q := x];
    }

    /** split_cfqq: whether the process keeps its queue, being the last one there. */
    method SplitCfqq(k: Slot) returns (kept: bool)
      requires Inv() && k in slots && slots[k] in queues
      modifies `queues, `slots
      ensures Inv() && kept == (ProcessRefs(old(queues)[old(slots)[k]]) == 1)
      ensures slots == if kept then old(slots) else old(slots) - {k}
      ensures kept ==> slots[k] in queues
    {
      hide Covered, Wired, Ranked, Counted, Referenced;
      var q := slots[k];
      kept := ProcessRefs(queues[q]) == 1;
      if kept {
        Flag(q, false, false);
      } else {
        ExitCfqq(k);
      }
    }

    /** cfq_get_queue: the handler holds one reference to q, which no slot has yet. */
    method GetQueue(sync: bool, key: AsyncKey) returns (q: nat)
      requires Inv()
      modifies `queues, `pins, `rank, `top
      ensures Sound(queues, slots, pins, requests, rank, top, Some(q), leaked)
      ensures q in queues && queues[q].sync == sync && queues[q].next.None?
      ensures if sync then pins == old(pins) else pins == old(pins)[key := q]
      ensures sync ==> q !in old(queues) && queues == old(queues)[q := NewQueue(true)]
      ensures !sync ==> SameSync(old(queues), queues)
    {
      hide Covered, Wired, Ranked, Counted, Referenced;
      if !sync && key in pins {
        q := pins[key];
        PinFacts(queues, slots, pins, key);
        TakeRef(queues, slots, pins, rank, top, leaked, q);
        MoreRefsKeepRest(queues, requests, q);
        queues := queues[q := queues[q].(ref := queues[q].ref + 1)];
        assert pins[key := q] == pins;
        return;
      }
      ghost var b := Above(queues.Keys);
      assert b !in queues;
      q :| q !in queues;
      var x := NewQueue(sync);
      NewQueueLinked(queues, slots, pins, rank, top, leaked, q, x);
      NewQueueKeepsRest(queues, requests, q, x);
      queues, rank, top := queues[q := x], rank[q := top + 1], top + 1;
      if !sync {
        TakePin(queues, slots, pins, key, q, leaked);
        pins := pins[key := q];
        TakeRef(queues, slots, pins, rank, top, leaked, q);
        MoreRefsKeepRest(queues, requests, q);
        queues := queues[q := queues[q].(ref := queues[q].ref + 1)];
      }
    }

    /** check_ioprio_changed: the asynchronous slot moves to the queue of the new priority. */
    method IoprioChanged(cic: nat, key: AsyncKey)
      requires Inv()
      modifies `queues, `slots, `pins, `rank, `top
      ensures Inv() && slots.Keys == old(slots).Keys
      ensures forall k :: k in slots && k != Slot(cic, false) ==> slots[k] == old(slots)[k]
      ensures Slot(cic, false) in slots ==> key in pins && slots[Slot(cic, false)] == pins[key]
      ensures SameSync(old(queues), queues)
    {
      hide Covered, Wired, Ranked, Counted, Referenced, Put;
      var k := Slot(cic, false);
      if k in slots {
        var q := slots[k];
        SlotFacts(queues, slots, pins, k);
        DropSlot(queues, slots, pins, k, leaked);
        PutSound(queues, slots - {k}, pins, requests, rank, top, q, leaked);
        PutAsync(queues, q);
        PutQueue(q);
        slots := slots - {k};
        q := GetQueue(false, key);
        TakeSlot(queues, slots, pins, k, q, leaked);
        slots := slots[k := q];
      }
    }

    /**
     * check_blkcg_changed: both slots are emptied, without walking the chain of the synchronous
     * queue.  If that queue was scheduled to merge, the next one, which is live, has one more
     * reference that nobody will drop; nothing is leaked otherwise.
     */
    method BlkcgChanged(cic: nat)
      requires Inv()
      modifies `queues, `slots, `leaked
      ensures Inv() && slots == old(slots) - {Slot(cic, false), Slot(cic, true)}
      ensures var n := NextOfSlot(old(queues), old(slots), Slot(cic, true));
              leaked == if n.None? then old(leaked) else Leak(old(leaked), n.value)
      ensures var n := NextOfSlot(old(queues), old(slots), Slot(cic, true));
              n.Some? ==> n.value in queues && Claims(queues, slots, pins, n.value) < ProcessRefs(queues[n.value])
    {
      hide Covered, Wired, Ranked, Counted, Referenced, Put;
      var k := Slot(cic, true);
      if k in slots {
        SlotFacts(queues, slots, pins, k);
      }
      if Slot(cic, false) in slots {
        var q := slots[Slot(cic, false)];
        SlotFacts(queues, slots, pins, Slot(cic, false));
        DropSlot(queues, slots, pins, Slot(cic, false), leaked);
        PutSound(queues, slots - {Slot(cic, false)}, pins, requests, rank, top, q, leaked);
        if k in slots {
          PutElsewhereSame(queues, q, slots[k]);
        }
        slots := slots - {Slot(cic, false)};
        PutQueue(q);
      }
      if k in slots {
        var q := slots[k];
        SlotFacts(queues, slots, pins, k);
        DropSlot(queues, slots, pins, k, leaked);
        PutSound(queues, slots - {k}, pins, requests, rank, top, q, leaked);
        slots := slots - {k};
        if queues[q].next.Some? {
          ForgetHeld(Put(queues, q), slots, pins, queues[q].next.value, leaked);
          leaked := Leak(leaked, queues[q].next.value);
          LeakIsLive(Put(queues, q), slots, pins, None, leaked, queues[q].next.value);
        }
        PutQueue(q);
      }
    }

    /** The part of cfq_set_request that finds the queue: split, merge or allocate. */
    method FindQueue(k: Slot, key: AsyncKey) returns (q: nat)
      requires Inv()
      modifies `queues, `slots, `pins, `rank, `top
      ensures Inv() && k in slots && slots[k] == q && q in queues && queues[q].sync == k.sync
      ensures slots == old(slots)[k := q]
      ensures k !in old(slots) && k.sync ==>
                q !in old(queues) && queues == old(queues)[q := NewQueue(true)]
      ensures k.sync ==> pins == old(pins)
    {
      hide Covered, Wired, Ranked, Counted, Referenced;
      var kept := k in slots;
      if kept {
        q := slots[k];
        SlotFacts(queues, slots, pins, k);
        if queues[q].coop && queues[q].splitCoop {
          kept := SplitCfqq(k);
        }
      }
      if !kept {
        q := GetQueue(k.sync, key);
        TakeSlot(queues, slots, pins, k, q, leaked);
        slots := slots[k := q];
      } else if queues[q].next.Some? {
        q := MergeCfqqs(k);
      }
      SlotFacts(queues, slots, pins, k);
    }

    /** cfq_set_request: the queue that request r will be inserted into. */
    method SetRequest(r: nat, k: Slot, rw: Dir, key: AsyncKey, ioprioChanged: bool, blkcgChanged: bool)
      requires Inv() && r !in requests
      modifies this
      ensures Inv() && k in slots && slots[k] in queues && queues[slots[k]].sync == k.sync
      ensures requests == old(requests)[r := (slots[k], rw)]
      ensures forall o :: o in slots && o.cic != k.cic ==> o in old(slots) && slots[o] == old(slots)[o]
      ensures var n := NextOfSlot(old(queues), old(slots), Slot(k.cic, true));
              leaked == if blkcgChanged && n.Some? then Leak(old(leaked), n.value) else old(leaked)
      ensures !ioprioChanged && k.sync ==> pins == old(pins)
      ensures !ioprioChanged && !blkcgChanged && k !in old(slots) && k.sync ==>
                && slots[k] !in old(queues) && slots == old(slots)[k := slots[k]]
                && queues == old(queues)[slots[k] := WithRequest(NewQueue(true), rw)]
    {
      hide Sound, SameSync, Leak, NextOfSlot, NewQueue, WithRequest;
      Refreshed(k.cic, key, ioprioChanged, blkcgChanged);
      var q := FindQueue(k, key);
      Assign(r, q, rw);
    }

    /** The checks of cfq_set_request for a process that changed its priority or its cgroup. */
    method Refreshed(cic: nat, key: AsyncKey, ioprioChanged: bool, blkcgChanged: bool)
      requires Inv()
      modifies `queues, `slots, `pins, `rank, `top, `leaked
      ensures Inv()
      ensures forall o :: o in slots && o.cic != cic ==> o in old(slots) && slots[o] == old(slots)[o]
      ensures forall o :: o in old(slots) && o.cic != cic ==> o in slots
      ensures var n := NextOfSlot(old(queues), old(slots), Slot(cic, true));
              leaked == if blkcgChanged && n.Some? then Leak(old(leaked), n.value) else old(leaked)
      ensures !ioprioChanged ==> pins == old(pins)
      ensures !ioprioChanged && !blkcgChanged ==> slots == old(slots) && queues == old(queues)
    {
      hide Covered, Wired, Ranked, Counted, Referenced, SameSync, Leak, ProcessRefs, Claims;
      SyncSlotKept(queues, slots, pins, cic);
      if ioprioChanged {
        ghost var qs, ss := queues, slots;
        IoprioChanged(cic, key);
        SameNextOfSlot(qs, ss, queues, slots, Slot(cic, true));
      }
      if blkcgChanged {
        BlkcgChanged(cic);
      }
    }

    /** Request r is allocated to queue q and holds a reference to it. */
    method Assign(r: nat, q: nat, rw: Dir)
      requires Inv() && r !in requests && q in queues
      modifies `queues, `requests
      ensures Inv() && requests == old(requests)[r := (q, rw)]
      ensures queues == old(queues)[q := WithRequest(old(queues)[q], rw)]
    {
      hide Covered, Wired, Ranked, Counted, Referenced;
      AllocateSound(queues, slots, pins, requests, rank, top, leaked, q, r, rw);
      queues := queues[q := WithRequest(queues[q], rw)];
      requests := requests[r := (q, rw)];
    }

    /** cfq_put_request. */
    method PutRequest(r: nat)
      requires Inv() && r in requests
      modifies `queues, `requests
      ensures Inv() && requests == old(requests) - {r}
    {
      hide Covered, Wired, Ranked, Counted, Referenced, Put;
      var q, rw := requests[r].0, requests[r].1;
      ReleaseSound(queues, slots, pins, requests, rank, top, leaked, r);
      RequestFacts(queues, requests, r);
      assert (if rw == READ then queues[q].readRqs else queues[q].writeRqs) != 0;
      queues := queues[q := Allocate(queues[q], rw, -1)];
      requests := requests - {r};
      PutQueue(q);
    }

    /** cfq_pd_offline: the group gives up its asynchronous queues. */
    method Offline(group: nat)
      requires Inv()
      modifies `queues, `pins
      ensures Inv()
      ensures pins == map key | key in old(pins) && !(key.group == group && key.prio < ASYNC_QUEUES) :: old(pins)[key]
    {
      hide Covered, Wired, Ranked, Counted, Referenced, Put;
      var i := 0;
      while i < ASYNC_QUEUES
        invariant Inv() && i <= ASYNC_QUEUES
        invariant pins == map key | key in old(pins) && !(key.group == group && key.prio < i) :: old(pins)[key]
      {
        var key := AsyncKey(group, i);
        if key in pins {
          PinFacts(queues, slots, pins, key);
          DropPin(queues, slots, pins, key, leaked);
          PutSound(queues, slots, pins - {key}, requests, rank, top, pins[key], leaked);
          PutQueue(pins[key]);
          pins := pins - {key};
        }
        i := i + 1;
      }
    }

    // ---------- every interleaving ----------

    /** One event, if its caller's obligations are met in the present state. */
    method Handle(e: RefEvent)
      requires Inv()
      modifies this
      ensures Inv() && Persists(old(leaked), leaked)
      ensures leaked == old(leaked) || (e.Set? && e.blkcgChanged)
    {
      hide Covered, Wired, Ranked, Counted, Referenced, Tail;
      match e {
        case Cooperate(a, b) =>
          if a in queues && b in queues && a != b && queues[a].sync && queues[b].sync && queues[a].next.None? {
            SetupMerge(a, b);
          }
        case Set(r, k, rw, key, ioprioChanged, blkcgChanged) =>
          if r !in requests {
            SetRequest(r, k, rw, key, ioprioChanged, blkcgChanged);
          }
        case PutRq(r) =>
          if r in requests {
            PutRequest(r);
          }
        case Exit(cic) => ExitIcq(cic);
        case SplitLater(q) =>
          if q in queues && queues[q].coop {
            Flag(q, true, true);
          }
        case GroupOffline(group) => Offline(group);
      }
    }

    /**
     * Over any run the counts are exactly accounted for, leaks included.  A leak is for good:
     * its queue is never freed and keeps a process reference nothing accounts for.  Without
     * cgroup changes nothing leaks.
     */
    method Run(es: seq<RefEvent>)
      requires Inv()
      modifies this
      ensures Inv() && Persists(old(leaked), leaked)
      ensures forall q :: Leaked(old(leaked), q) > 0 ==>
                q in queues && Claims(queues, slots, pins, q) + Leaked(old(leaked), q) <= ProcessRefs(queues[q])
      ensures (forall e :: e in es ==> !(e.Set? && e.blkcgChanged)) ==> leaked == old(leaked)
    {
      hide Sound, Claims;
      for i := 0 to |es|
        invariant Inv() && Persists(old(leaked), leaked)
        invariant (forall e :: e in es ==> !(e.Set? && e.blkcgChanged)) ==> leaked == old(leaked)
      {
        Handle(es[i]);
      }
      forall q | Leaked(old(leaked), q) > 0
        ensures q in queues && Claims(queues, slots, pins, q) + Leaked(old(leaked), q) <= ProcessRefs(queues[q])
      {
        SoundIsCovered(queues, slots, pins, requests, rank, top, leaked);
        LeakIsLive(queues, slots, pins, None, leaked, q);
      }
    }
  }

  /** Two processes with a request each, the queue of the first to be merged into that of the second. */
  method TwoToMerge() returns (t: CfqRefs, b: nat)
    ensures fresh(t) && t.Inv() && t.leaked == map[] && t.pins == map[]
    ensures t.slots.Keys == {Slot(1, true), Slot(2, true)} && t.requests.Keys == {1, 2}
    ensures NextOfSlot(t.queues, t.slots, Slot(1, true)) == Some(b)
  {
    hide Covered, Wired, Counted, Referenced, Ranked, Schedule, WithRequest, NewQueue, Tail, ProcessRefs;
    OneReference(READ);
    t := new CfqRefs();
    t.SetRequest(1, Slot(1, true), READ, AsyncKey(0, 0), false, false);
    t.SetRequest(2, Slot(2, true), READ, AsyncKey(0, 0), false, false);
    var a := t.slots[Slot(1, true)];
    b := t.slots[Slot(2, true)];
    EndsAtItself(t.queues, t.rank, t.top, b);
    LinkToOther(t.queues, a, b);
    t.SetupMerge(a, b);
  }

  lemma OneReference(rw: Dir)
    ensures var x := WithRequest(NewQueue(true), rw); x.next.None? && x.sync && ProcessRefs(x) == 1
  {
    hide Allocate;
    assert ProcessRefs(NewQueue(true)) == 1;
  }

  lemma LinkToOther(qs: Queues, a: nat, b: nat)
    requires a in qs && b in qs && a != b
    ensures Schedule(qs, a, b)[a].next == Some(b)
  {
  }

  /**
   * A run that leaks: the first of two processes whose queues are to be merged moves to
   * another cgroup.  When both have exited and all requests are gone, a queue is left over
   * that no slot, pin or request refers to.
   */
  method LeakOnCgroupChange() returns (t: CfqRefs, b: nat)
    ensures fresh(t) && t.Inv() && t.slots == map[] && t.pins == map[] && t.requests == map[]
    ensures b in t.queues && t.queues[b].ref > 0 && t.leaked == Leak(map[], b)
  {
    hide Sound, Claims;
    t, b := TwoToMerge();
    t.SetRequest(3, Slot(1, true), READ, AsyncKey(0, 0), false, true);
    t.ExitIcq(1);
    t.ExitIcq(2);
    t.PutRequest(1);
    t.PutRequest(2);
    t.PutRequest(3);
    SoundIsCovered(t.queues, t.slots, t.pins, t.requests, t.rank, t.top, t.leaked);
    LeakIsLive(t.queues, t.slots, t.pins, None, t.leaked, b);
  }

  lemma SoundIsCovered(qs: Queues, ss: Slots, ps: Pins, rs: Requests, rank: map<nat, nat>, top: nat, lk: Leaks)
    requires Sound(qs, ss, ps, rs, rank, top, None, lk)
    ensures Covered(qs, ss, ps, None, lk) && forall q :: q in qs ==> qs[q].ref > 0
  {
  }

  datatype RefEvent =
    | Cooperate(a: nat, b: nat)
    | Set(r: nat, k: Slot, rw: Dir, key: AsyncKey, ioprioChanged: bool, blkcgChanged: bool)
    | PutRq(r: nat)
    | Exit(cic: nat)
    | SplitLater(q: nat)
    | GroupOffline(group: nat)
}
