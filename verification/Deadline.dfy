/**
 * The deadline scheduler: reads and writes held in sector order and in arrival order,
 * dispatched in batches, with bounds on how long either side can be kept waiting.
 */
module Deadline {
  import opened Seqs
  import opened Ordered
  import opened Kernel

  /** id is the request's identity; expires is fifo_time, stamped on arrival. */
  datatype Rq = Rq(id: nat, dir: Dir, sector: nat, expires: int)

  const SectorOf: Rq -> int := (r: Rq) => r.sector

  /** sort_list, fifo_list and next_rq of one direction. */
  datatype Side = Side(sort: seq<Rq>, fifo: seq<Rq>, next: Option<Rq>)

  datatype State = State(read: Side, write: Side, batching: nat, starved: nat) {
    function Of(d: Dir): Side {
      if d == READ then read else write
    }
  }

  /** The tunables fifo_batch, writes_starved and fifo_expire. */
  datatype Limits = Limits(fifoBatch: nat, writesStarved: nat, readExpire: nat, writeExpire: nat) {
    function Expire(d: Dir): nat {
      if d == READ then readExpire else writeExpire
    }
  }

  /** As the driver sets them, with hz ticks in a second. */
  function Defaults(hz: nat): Limits {
    Limits(16, 2, hz / 2, 5 * hz)
  }

  const EMPTY_SIDE := Side([], [], None)

  // ---------- one direction ----------

  ghost predicate SideInv(x: Side, d: Dir) {
    && Sorted(SectorOf, x.sort) && NoDup(x.sort) && NoDup(x.fifo)
    && (forall r :: r in x.sort <==> r in x.fifo)
    && (forall r :: r in x.sort ==> r.dir == d)
    && (x.next.Some? ==> x.next.value in x.sort)
  }

  /** deadline_latter_request. */
  function Latter(s: seq<Rq>, r: Rq): Option<Rq>
    requires r in s
  {
    var i := IndexOf(s, r);
    if i + 1 < |s| then Some(s[i + 1]) else None
  }

  /** The direction's part of deadline_move_request. */
  function Moved(x: Side, r: Rq): Side
    requires r in x.sort
  {
    Side(Remove(x.sort, r), Remove(x.fifo, r), Latter(x.sort, r))
  }

  function Joined(x: Side, r: Rq): Side {
    Side(Insert(SectorOf, x.sort, r), x.fifo + [r], x.next)
  }

  lemma LatterIsNext(s: seq<Rq>, r: Rq)
    requires r in s && NoDup(s) && Sorted(SectorOf, s)
    ensures Latter(s, r).Some? ==> Latter(s, r).value in s && Latter(s, r) != Some(r)
    ensures Latter(s, r).Some? ==> r.sector <= Latter(s, r).value.sector
  {
  }

  lemma MovedKeepsInv(x: Side, r: Rq, d: Dir)
    requires SideInv(x, d) && r in x.sort
    ensures SideInv(Moved(x, r), d)
    ensures forall o :: o in Moved(x, r).sort <==> o in x.sort && o != r
    ensures forall o :: o in Moved(x, r).fifo <==> o in x.fifo && o != r
  {
    RemoveMembers(x.sort, r);
    RemoveMembers(x.fifo, r);
    RemoveSorted(SectorOf, x.sort, r);
    LatterIsNext(x.sort, r);
  }

  lemma JoinedKeepsInv(x: Side, r: Rq)
    requires SideInv(x, r.dir) && r !in x.sort
    ensures SideInv(Joined(x, r), r.dir)
    ensures forall o :: o in Joined(x, r).sort <==> o == r || o in x.sort
  {
    InsertSorted(SectorOf, x.sort, r);
    InsertMembers(SectorOf, x.sort, r);
  }

  // ---------- dispatch and arrival ----------

  ghost predicate Inv(s: State, l: Limits) {
    && SideInv(s.read, READ) && SideInv(s.write, WRITE)
    && (s.read.next.None? || s.write.next.None?)
    && (s.read.next.Some? || s.write.next.Some? ==> 1 <= s.batching)
    && s.batching <= l.fifoBatch
    && s.starved <= l.writesStarved
    && (s.write.next.Some? ==> s.starved == 0)
  }

  predicate Pending(s: State) {
    s.read.fifo != [] || s.write.fifo != []
  }

  /** How many more requests the running batch may still send. */
  function Remaining(s: State, l: Limits): nat {
    if (s.read.next.Some? || s.write.next.Some?) && s.batching < l.fifoBatch then l.fifoBatch - s.batching else 0
  }

  function BatchDir(s: State): Dir {
    if s.write.next.Some? then WRITE else READ
  }

  /** Whose turn a new batch is: reads, unless they have made writes wait often enough. */
  function TurnOf(s: State, l: Limits): Dir {
    if s.read.fifo == [] || (s.write.fifo != [] && s.starved >= l.writesStarved) then WRITE else READ
  }

  function StarvedAfter(s: State, l: Limits): nat {
    if TurnOf(s, l) == WRITE then 0 else if s.write.fifo != [] then s.starved + 1 else s.starved
  }

  function Take(s: State, r: Rq, batching: nat, starved: nat): State
    requires r in s.Of(r.dir).sort
  {
    if r.dir == READ then State(Moved(s.read, r), s.write.(next := None), batching, starved)
    else State(s.read.(next := None), Moved(s.write, r), batching, starved)
  }

  /** The request the next dispatch will send. */
  function Chosen(s: State, l: Limits, now: int): Rq
    requires Pending(s)
  {
    if Remaining(s, l) > 0 then s.Of(BatchDir(s)).next.value
    else
      var x := s.Of(TurnOf(s, l));
      if x.fifo[0].expires <= now || x.next.None? then x.fifo[0] else x.next.value
  }

  lemma ChosenIsPending(s: State, l: Limits, now: int)
    requires Inv(s, l) && Pending(s)
    ensures var r := Chosen(s, l, now);
            r in s.Of(r.dir).sort && r.dir == if Remaining(s, l) > 0 then BatchDir(s) else TurnOf(s, l)
  {
    var x := s.Of(TurnOf(s, l));
    assert x.fifo[0] in x.fifo;
  }

  function Dispatched(s: State, l: Limits, now: int): State
    requires Pending(s)
    requires var r := Chosen(s, l, now); r in s.Of(r.dir).sort
  {
    var r := Chosen(s, l, now);
    if Remaining(s, l) > 0 then Take(s, r, s.batching + 1, s.starved) else Take(s, r, 1, StarvedAfter(s, l))
  }

  function Added(s: State, r: Rq): State {
    if r.dir == READ then s.(read := Joined(s.read, r)) else s.(write := Joined(s.write, r))
  }

  lemma DispatchKeepsInv(s: State, l: Limits, now: int)
    requires Inv(s, l) && Pending(s) && l.fifoBatch >= 1
    ensures var r := Chosen(s, l, now); r in s.Of(r.dir).sort
    ensures Inv(Dispatched(s, l, now), l)
    ensures forall d, o :: o in Dispatched(s, l, now).Of(d).sort <==> o in s.Of(d).sort && o != Chosen(s, l, now)
  {
    ChosenIsPending(s, l, now);
    var r := Chosen(s, l, now);
    MovedKeepsInv(s.Of(r.dir), r, r.dir);
  }

  lemma AddKeepsInv(s: State, l: Limits, r: Rq)
    requires Inv(s, l) && r !in s.Of(r.dir).sort
    ensures Inv(Added(s, r), l)
    ensures forall d, o :: o in Added(s, r).Of(d).sort <==> o in s.Of(d).sort || (o == r && d == r.dir)
  {
    JoinedKeepsInv(s.Of(r.dir), r);
  }

  // ---------- the driver's data ----------

  /** An array indexed by direction, both entries alike. */
  function Both<T>(x: T): (m: map<Dir, T>)
    ensures forall d: Dir :: d in m && m[d] == x
  {
    map d: Dir | d.READ? || d.WRITE? :: x
  }

  class DeadlineData {
    var sortList: map<Dir, seq<Rq>>
    var fifoList: map<Dir, seq<Rq>>
    var nextRq: map<Dir, Option<Rq>>
    var batching: nat
    var starved: nat
    /** Requests moved to the device queue, in order. */
    var sent: seq<Rq>
    const limits: Limits

    ghost predicate Shaped()
      reads this
    {
      forall d: Dir :: d in sortList && d in fifoList && d in nextRq
    }

    ghost function View(): State
      reads this
      requires Shaped()
    {
      State(Side(sortList[READ], fifoList[READ], nextRq[READ]),
            Side(sortList[WRITE], fifoList[WRITE], nextRq[WRITE]), batching, starved)
    }

    ghost predicate Valid()
      reads this
    {
      Shaped() && limits.fifoBatch >= 1 && Inv(View(), limits)
    }

    constructor (hz: nat)
      ensures Valid() && limits == Defaults(hz) && View() == State(EMPTY_SIDE, EMPTY_SIDE, 0, 0) && sent == []
    {
      sortList, fifoList := Both([]), Both([]);
      nextRq, batching, starved, sent := Both(None), 0, 0, [];
      limits := Defaults(hz);
    }

    /** deadline_add_request: stamp the expiry time and join both lists. */
    method AddRequest(rq: Rq, now: int)
      requires Valid() && forall o :: o in sortList[rq.dir] ==> o.id != rq.id
      modifies `sortList, `fifoList
      ensures Valid() && View() == Added(old(View()), rq.(expires := now + limits.Expire(rq.dir)))
    {
      var r := rq.(expires := now + limits.Expire(rq.dir));
      AddKeepsInv(View(), limits, r);
      hide Inv;
      sortList := sortList[r.dir := Insert(SectorOf, sortList[r.dir], r)];
      fifoList := fifoList[r.dir := fifoList[r.dir] + [r]];
    }

    /** deadline_move_request. */
    method MoveRequest(r: Rq)
      requires Shaped() && r in sortList[r.dir] && NoDup(sortList[r.dir]) && Sorted(SectorOf, sortList[r.dir])
      modifies `sortList, `fifoList, `nextRq, `sent
      ensures Shaped() && View() == Take(old(View()), r, batching, starved) && sent == old(sent) + [r]
    {
      nextRq := Both(None)[r.dir := Latter(sortList[r.dir], r)];
      LatterIsNext(sortList[r.dir], r);
      fifoList := fifoList[r.dir := Remove(fifoList[r.dir], r)];
      if nextRq[r.dir] == Some(r) {
        assert false;
      }
      sortList := sortList[r.dir := Remove(sortList[r.dir], r)];
      sent := sent + [r];
    }

    /** The first half of deadline_dispatch_requests, when no batch goes on. */
    method StartBatch(now: int) returns (rq: Rq)
      requires Shaped() && Pending(View()) && SameLists(View())
      modifies `starved
      ensures starved == StarvedAfter(old(View()), limits)
      ensures var x := old(View()).Of(TurnOf(old(View()), limits));
              x.fifo != [] && rq == if x.fifo[0].expires <= now || x.next.None? then x.fifo[0] else x.next.value
    {
      var haveReads, haveWrites := fifoList[READ] != [], fifoList[WRITE] != [];
      var dataDir := WRITE;
      if haveReads {
        assert fifoList[READ][0] in View().Of(READ).fifo;
        assert sortList[READ] != [];
        var writesWaited := haveWrites && starved >= limits.writesStarved;
        if haveWrites {
          starved := starved + 1;
        }
        if !writesWaited {
          dataDir := READ;
        }
      }
      if dataDir == WRITE {
        assert fifoList[WRITE][0] in old(View()).Of(WRITE).fifo;
        assert sortList[WRITE] != [];
        starved := 0;
      }
      rq := if fifoList[dataDir][0].expires <= now || nextRq[dataDir].None? then fifoList[dataDir][0]
            else nextRq[dataDir].value;
    }

    /** deadline_dispatch_requests; the source needs something pending to know a direction. */
    method DispatchRequests(now: int)
      requires Valid() && (fifoList[READ] != [] || fifoList[WRITE] != [])
      modifies this
      ensures Valid() && Pending(old(View()))
      ensures var r := Chosen(old(View()), limits, now);
              && r in old(View()).Of(r.dir).sort && sent == old(sent) + [r]
              && View() == Dispatched(old(View()), limits, now)
    {
      ghost var s := View();
      ChosenIsPending(s, limits, now);
      assert Inv(Dispatched(s, limits, now), limits) by { DispatchKeepsInv(s, limits, now); }
      ListsAgree(s, limits);
      SortedSides(s, limits);
      var next := if nextRq[WRITE].Some? then nextRq[WRITE] else nextRq[READ];
      hide Inv, SideInv, StarvedAfter, Moved;
      var rq: Rq;
      if next.Some? && batching < limits.fifoBatch {
        rq := next.value;
      } else {
        rq := StartBatch(now);
        batching := 0;
      }
      batching := batching + 1;
      assert rq == Chosen(s, limits, now);
      MoveRequest(rq);
    }
  }

  ghost predicate SameLists(s: State) {
    forall d: Dir, r :: r in s.Of(d).sort <==> r in s.Of(d).fifo
  }

  lemma ListsAgree(s: State, l: Limits)
    requires Inv(s, l)
    ensures SameLists(s)
  {
  }

  lemma SortedSides(s: State, l: Limits)
    requires Inv(s, l)
    ensures forall d: Dir :: NoDup(s.Of(d).sort) && Sorted(SectorOf, s.Of(d).sort)
    ensures forall d: Dir :: s.Of(d).next.Some? ==> s.Of(d).next.value in s.Of(d).sort
  {
  }

  // ---------- runs ----------

  datatype Step = Add(rq: Rq) | Dispatch(now: int)

  function Next(s: State, l: Limits, e: Step): State
    requires e.Dispatch? ==> Pending(s) && var r := Chosen(s, l, e.now); r in s.Of(r.dir).sort
  {
    match e {
      case Add(r) => Added(s, r)
      case Dispatch(now) => Dispatched(s, l, now)
    }
  }

  ghost predicate CanStep(s: State, e: Step) {
    match e {
      case Add(r) => r !in s.Of(r.dir).sort
      case Dispatch(now) => Pending(s)
    }
  }

  lemma StepKeepsInv(s: State, l: Limits, e: Step)
    requires Inv(s, l) && l.fifoBatch >= 1 && CanStep(s, e)
    ensures e.Dispatch? ==> var r := Chosen(s, l, e.now); r in s.Of(r.dir).sort
    ensures Inv(Next(s, l, e), l)
  {
    match e {
      case Add(r) => AddKeepsInv(s, l, r);
      case Dispatch(now) => DispatchKeepsInv(s, l, now);
    }
  }

  /** A run that is possible from s, in which time does not fall below `from` or go back. */
  ghost predicate Possible(s: State, l: Limits, es: seq<Step>, from: int)
    requires Inv(s, l) && l.fifoBatch >= 1
    decreases |es|
  {
    es == [] ||
    (CanStep(s, es[0]) && (es[0].Dispatch? ==> from <= es[0].now)
     && (StepKeepsInv(s, l, es[0]);
         Possible(Next(s, l, es[0]), l, es[1..], if es[0].Dispatch? then es[0].now else from)))
  }

  /** The requests a run sends to the device, in order. */
  ghost function Sent(s: State, l: Limits, es: seq<Step>, from: int): seq<Rq>
    requires Inv(s, l) && l.fifoBatch >= 1 && Possible(s, l, es, from)
    decreases |es|
  {
    if es == [] then []
    else
      StepKeepsInv(s, l, es[0]);
      var rest := Sent(Next(s, l, es[0]), l, es[1..], if es[0].Dispatch? then es[0].now else from);
      if es[0].Dispatch? then [Chosen(s, l, es[0].now)] + rest else rest
  }

  ghost predicate AllOf(d: Dir, rs: seq<Rq>) {
    forall r :: r in rs ==> r.dir == d
  }

  // ---------- how long a direction waits ----------

  /** The requests of k full batches. */
  function Batches(k: int, l: Limits): int {
    k * l.fifoBatch
  }

  lemma OneBatchLess(k: int, l: Limits)
    ensures Batches(k, l) == Batches(k - 1, l) + l.fifoBatch
  {
  }

  lemma BatchesBounds(k: int, n: int, l: Limits)
    requires 0 <= k <= n
    ensures 0 <= Batches(k, l) <= Batches(n, l) && Batches(n, l) + l.fifoBatch == (n + 1) * l.fifoBatch
  {
    MulMonotone(0, k, l.fifoBatch);
    MulMonotone(k, n, l.fifoBatch);
  }

  /** The reads that can still go ahead of a pending write. */
  function WriteWait(s: State, l: Limits): int {
    (if s.write.next.Some? then 0 else Remaining(s, l)) + Batches(l.writesStarved - s.starved, l)
  }

  /** The writes that can still go ahead of a pending read. */
  function ReadWait(s: State, l: Limits): int {
    (if s.write.next.Some? then Remaining(s, l) else 0) + if s.starved >= l.writesStarved then l.fifoBatch else 0
  }

  lemma WaitBounds(s: State, l: Limits)
    requires Inv(s, l) && l.fifoBatch >= 1
    ensures 0 <= WriteWait(s, l) < (l.writesStarved + 1) * l.fifoBatch
    ensures l.writesStarved >= 1 ==> 0 <= ReadWait(s, l) <= l.fifoBatch
  {
    BatchesBounds(l.writesStarved - s.starved, l.writesStarved, l);
    hide Batches, SideInv;
  }

  lemma MulMonotone(a: int, b: int, f: int)
    requires a <= b && f >= 0
    ensures a * f <= b * f
  {
  }

  /** Each read sent while a write waits brings the write's turn closer. */
  lemma ReadStepsCloser(s: State, l: Limits, now: int)
    requires Inv(s, l) && l.fifoBatch >= 1 && s.write.fifo != []
    ensures var r := Chosen(s, l, now); r in s.Of(r.dir).sort
    ensures Chosen(s, l, now).dir == READ ==> WriteWait(Dispatched(s, l, now), l) < WriteWait(s, l)
  {
    ChosenIsPending(s, l, now);
    DispatchKeepsInv(s, l, now);
    OneBatchLess(l.writesStarved - s.starved, l);
    hide Batches, SideInv, Moved;
  }

  lemma WriteStepsCloser(s: State, l: Limits, now: int)
    requires Inv(s, l) && l.fifoBatch >= 1 && l.writesStarved >= 1 && s.read.fifo != []
    ensures var r := Chosen(s, l, now); r in s.Of(r.dir).sort
    ensures Chosen(s, l, now).dir == WRITE ==> ReadWait(Dispatched(s, l, now), l) < ReadWait(s, l)
  {
    ChosenIsPending(s, l, now);
    DispatchKeepsInv(s, l, now);
  }

  lemma AddLeavesWaits(s: State, l: Limits, r: Rq)
    ensures WriteWait(Added(s, r), l) == WriteWait(s, l) && ReadWait(Added(s, r), l) == ReadWait(s, l)
    ensures Remaining(Added(s, r), l) == Remaining(s, l)
  {
  }

  /**
   * While a write is pending, a run that sends only reads sends fewer than
   * (writes_starved + 1) * fifo_batch of them, whatever arrives meanwhile.
   */
  lemma WriteIsServed(s: State, l: Limits, es: seq<Step>, from: int)
    requires Inv(s, l) && l.fifoBatch >= 1 && Possible(s, l, es, from)
    requires s.write.fifo != [] && AllOf(READ, Sent(s, l, es, from))
    ensures |Sent(s, l, es, from)| < (l.writesStarved + 1) * l.fifoBatch
  {
    OnlyReads(s, l, es, from);
    WaitBounds(s, l);
  }

  lemma {:induction false} OnlyReads(s: State, l: Limits, es: seq<Step>, from: int)
    requires Inv(s, l) && l.fifoBatch >= 1 && Possible(s, l, es, from)
    requires s.write.fifo != [] && AllOf(READ, Sent(s, l, es, from))
    ensures |Sent(s, l, es, from)| <= WriteWait(s, l)
    decreases |es|
  {
    WaitBounds(s, l);
    if es != [] {
      StepKeepsInv(s, l, es[0]);
      var s' := Next(s, l, es[0]);
      match es[0] {
        case Add(r) =>
          AddLeavesWaits(s, l, r);
          OnlyReads(s', l, es[1..], from);
        case Dispatch(now) =>
          assert Sent(s, l, es, from)[0].dir == READ;
          SentTail(s, l, es, from, READ);
          ReadStepsCloser(s, l, now);
          OnlyReads(s', l, es[1..], now);
      }
    }
  }

  lemma SentTail(s: State, l: Limits, es: seq<Step>, from: int, d: Dir)
    requires Inv(s, l) && l.fifoBatch >= 1 && Possible(s, l, es, from)
    requires es != [] && es[0].Dispatch? && AllOf(d, Sent(s, l, es, from))
    ensures Pending(s) && var r := Chosen(s, l, es[0].now); r in s.Of(r.dir).sort && r.dir == d
    ensures var s' := Next(s, l, es[0]);
            Inv(s', l) && Possible(s', l, es[1..], es[0].now) && AllOf(d, Sent(s', l, es[1..], es[0].now))
  {
    StepKeepsInv(s, l, es[0]);
    var out := Sent(s, l, es, from);
    assert out[0] in out && out[1..] == Sent(Next(s, l, es[0]), l, es[1..], es[0].now);
  }

  /** While a read is pending, at most fifo_batch writes in a row are sent. */
  lemma ReadIsServed(s: State, l: Limits, es: seq<Step>, from: int)
    requires Inv(s, l) && l.fifoBatch >= 1 && l.writesStarved >= 1 && Possible(s, l, es, from)
    requires s.read.fifo != [] && AllOf(WRITE, Sent(s, l, es, from))
    ensures |Sent(s, l, es, from)| <= l.fifoBatch
  {
    OnlyWrites(s, l, es, from);
    WaitBounds(s, l);
  }

  lemma {:induction false} OnlyWrites(s: State, l: Limits, es: seq<Step>, from: int)
    requires Inv(s, l) && l.fifoBatch >= 1 && l.writesStarved >= 1 && Possible(s, l, es, from)
    requires s.read.fifo != [] && AllOf(WRITE, Sent(s, l, es, from))
    ensures |Sent(s, l, es, from)| <= ReadWait(s, l)
    decreases |es|
  {
    WaitBounds(s, l);
    if es != [] {
      StepKeepsInv(s, l, es[0]);
      var s' := Next(s, l, es[0]);
      match es[0] {
        case Add(r) =>
          AddLeavesWaits(s, l, r);
          OnlyWrites(s', l, es[1..], from);
        case Dispatch(now) =>
          SentTail(s, l, es, from, WRITE);
          WriteStepsCloser(s, l, now);
          OnlyWrites(s', l, es[1..], now);
      }
    }
  }

  // ---------- how long an expired request waits ----------

  /** The dispatches that can still go ahead of an expired head of direction d's FIFO. */
  function ExpiredWait(s: State, l: Limits, d: Dir): int {
    Remaining(s, l) + if d == READ then (if s.starved >= l.writesStarved then l.fifoBatch else 0)
                      else Batches(l.writesStarved - s.starved, l)
  }

  lemma ExpiredBounds(s: State, l: Limits, d: Dir)
    requires Inv(s, l) && l.fifoBatch >= 1
    ensures 0 <= ExpiredWait(s, l, d) < if d == READ then 2 * l.fifoBatch else (l.writesStarved + 1) * l.fifoBatch
  {
    BatchesBounds(l.writesStarved - s.starved, l.writesStarved, l);
    hide Batches, SideInv;
  }

  ghost predicate ExpiredHead(s: State, d: Dir, h: Rq, from: int) {
    s.Of(d).fifo != [] && s.Of(d).fifo[0] == h && h.expires <= from
  }

  /** A dispatch sends the expired head itself, or leaves it the head and its turn closer. */
  lemma ExpiredStepsCloser(s: State, l: Limits, d: Dir, h: Rq, now: int)
    requires Inv(s, l) && l.fifoBatch >= 1 && ExpiredHead(s, d, h, now)
    requires d == READ ==> l.writesStarved >= 1
    ensures var r := Chosen(s, l, now); r in s.Of(r.dir).sort
    ensures Chosen(s, l, now) == h ||
            (ExpiredHead(Dispatched(s, l, now), d, h, now)
             && ExpiredWait(Dispatched(s, l, now), l, d) < ExpiredWait(s, l, d))
  {
    ChosenIsPending(s, l, now);
    if Chosen(s, l, now) != h {
      HeadStays(s, l, d, h, now);
      DispatchKeepsInv(s, l, now);
      TurnComesCloser(s, l, d, now);
    }
  }

  lemma TurnComesCloser(s: State, l: Limits, d: Dir, now: int)
    requires Inv(s, l) && l.fifoBatch >= 1 && s.Of(d).fifo != [] && (d == READ ==> l.writesStarved >= 1)
    requires var r := Chosen(s, l, now);
             r in s.Of(r.dir).sort && r.dir == if Remaining(s, l) > 0 then BatchDir(s) else TurnOf(s, l)
    requires Remaining(s, l) == 0 ==> TurnOf(s, l) != d
    requires Inv(Dispatched(s, l, now), l)
    ensures ExpiredWait(Dispatched(s, l, now), l, d) < ExpiredWait(s, l, d)
  {
    OneBatchLess(l.writesStarved - s.starved, l);
    hide Batches, SideInv, Moved, Chosen;
  }

  lemma HeadStays(s: State, l: Limits, d: Dir, h: Rq, now: int)
    requires Inv(s, l) && ExpiredHead(s, d, h, now)
    requires var r := Chosen(s, l, now); r in s.Of(r.dir).sort && r != h
    ensures ExpiredHead(Dispatched(s, l, now), d, h, now)
  {
    hide SideInv, Inv, Chosen, TurnOf, Remaining, StarvedAfter, Latter;
  }

  /**
   * An expired read at the head of its FIFO is among the next 2 * fifo_batch requests sent,
   * an expired write among the next (writes_starved + 1) * fifo_batch.
   */
  lemma ExpiredIsServed(s: State, l: Limits, es: seq<Step>, from: int, d: Dir, h: Rq)
    requires Inv(s, l) && l.fifoBatch >= 1 && Possible(s, l, es, from) && ExpiredHead(s, d, h, from)
    requires d == READ ==> l.writesStarved >= 1
    requires h !in Sent(s, l, es, from)
    ensures |Sent(s, l, es, from)| < if d == READ then 2 * l.fifoBatch else (l.writesStarved + 1) * l.fifoBatch
  {
    StillWaiting(s, l, es, from, d, h);
    ExpiredBounds(s, l, d);
  }

  lemma AddLeavesExpired(s: State, l: Limits, r: Rq, d: Dir, h: Rq, from: int)
    requires ExpiredHead(s, d, h, from)
    ensures ExpiredHead(Added(s, r), d, h, from) && ExpiredWait(Added(s, r), l, d) == ExpiredWait(s, l, d)
  {
    AddLeavesWaits(s, l, r);
  }

  lemma {:induction false} StillWaiting(s: State, l: Limits, es: seq<Step>, from: int, d: Dir, h: Rq)
    requires Inv(s, l) && l.fifoBatch >= 1 && Possible(s, l, es, from) && ExpiredHead(s, d, h, from)
    requires d == READ ==> l.writesStarved >= 1
    requires h !in Sent(s, l, es, from)
    ensures |Sent(s, l, es, from)| <= ExpiredWait(s, l, d)
    decreases |es|
  {
    ExpiredBounds(s, l, d);
    if es != [] {
      StepKeepsInv(s, l, es[0]);
      var s' := Next(s, l, es[0]);
      hide Inv, ExpiredWait, Chosen, Dispatched;
      match es[0] {
        case Add(r) =>
          AddLeavesWaits(s, l, r);
          AddLeavesExpired(s, l, r, d, h, from);
          StillWaiting(s', l, es[1..], from, d, h);
        case Dispatch(now) =>
          var out := Sent(s, l, es, from);
          assert out[0] in out && out[1..] == Sent(s', l, es[1..], now);
          ExpiredStepsCloser(s, l, d, h, now);
          StillWaiting(s', l, es[1..], now, d, h);
      }
    }
  }
}
