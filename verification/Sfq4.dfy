/**
 * The start-time fair queueing driver built around a heap, which never holds more than the
 * one request being dispatched: its dispatch is plain round robin over per-process FIFOs.
 */
module Sfq4 {
  import opened Seqs
  import opened TagHeap

  datatype SfqQueue = SfqQueue(pid: nat, queue: seq<SfqRequest>)

  const REQUEST_DEPTH := 64
  const REQUEST_LENGTH := 100
  const REQUEST_WEIGHT := 1

  // ---------- plain round robin ----------

  /** The FIFO of each process, whose turn was last, and the number of requests in flight. */
  datatype RoundRobin = RoundRobin(fifos: seq<seq<SfqRequest>>, last: Option<nat>, inFlight: int)

  predicate InRange(s: RoundRobin) {
    s.last.Some? ==> s.last.value < |s.fifos|
  }

  function Turn(s: RoundRobin): (p: nat)
    requires InRange(s) && s.fifos != []
    ensures p < |s.fifos|
  {
    if s.last.None? || s.last.value + 1 == |s.fifos| then 0 else s.last.value + 1
  }

  /** The turn passes on; a process with nothing waiting, or no room in the device, loses it. */
  function Served(s: RoundRobin): Option<SfqRequest>
    requires InRange(s)
  {
    if s.fifos == [] || s.fifos[Turn(s)] == [] || s.inFlight > REQUEST_DEPTH then None else Some(s.fifos[Turn(s)][0])
  }

  function Serve(s: RoundRobin): RoundRobin
    requires InRange(s)
  {
    if s.fifos == [] then s
    else
      var p := Turn(s);
      if Served(s).None? then s.(last := Some(p))
      else RoundRobin(s.fifos[p := s.fifos[p][1..]], Some(p), s.inFlight + 1)
  }

  function Waiting(fifos: seq<seq<SfqRequest>>): nat {
    if fifos == [] then 0 else |fifos[0]| + Waiting(fifos[1..])
  }

  lemma {:induction false} WaitingUpdate(fifos: seq<seq<SfqRequest>>, p: nat, f: seq<SfqRequest>)
    requires p < |fifos|
    ensures Waiting(fifos[p := f]) == Waiting(fifos) - |fifos[p]| + |f|
  {
    if p == 0 {
      assert fifos[p := f][1..] == fifos[1..];
    } else {
      assert fifos[p := f][1..] == fifos[1..][p - 1 := f];
      WaitingUpdate(fifos[1..], p - 1, f);
    }
  }

  lemma {:induction false} WaitingJoin(fifos: seq<seq<SfqRequest>>)
    ensures Waiting(fifos + [[]]) == Waiting(fifos)
  {
    if fifos != [] {
      assert (fifos + [[]])[1..] == fifos[1..] + [[]];
      WaitingJoin(fifos[1..]);
    } else {
      assert fifos + [[]] == [[]];
    }
  }

  function FifosOf(queue: seq<SfqQueue>): (fifos: seq<seq<SfqRequest>>)
    ensures |fifos| == |queue| && forall i :: 0 <= i < |queue| ==> fifos[i] == queue[i].queue
  {
    if queue == [] then [] else [queue[0].queue] + FifosOf(queue[1..])
  }

  lemma FifosUpdate(queue: seq<SfqQueue>, i: nat, f: seq<SfqRequest>)
    requires i < |queue|
    ensures FifosOf(queue[i := queue[i].(queue := f)]) == FifosOf(queue)[i := f]
    ensures Waiting(FifosOf(queue[i := queue[i].(queue := f)])) == Waiting(FifosOf(queue)) - |queue[i].queue| + |f|
  {
    assert FifosOf(queue[i := queue[i].(queue := f)]) == FifosOf(queue)[i := f];
    WaitingUpdate(FifosOf(queue), i, f);
  }

  lemma FifosJoin(queue: seq<SfqQueue>, pid: nat)
    ensures FifosOf(queue + [SfqQueue(pid, [])]) == FifosOf(queue) + [[]]
    ensures Waiting(FifosOf(queue + [SfqQueue(pid, [])])) == Waiting(FifosOf(queue))
  {
    assert FifosOf(queue + [SfqQueue(pid, [])]) == FifosOf(queue) + [[]];
    WaitingJoin(FifosOf(queue));
  }

  lemma OneEntry(h: seq<SfqRequest>, x: SfqRequest)
    requires h == []
    ensures Insert(h, x) == [x]
  {
  }

  // ---------- the driver's data ----------

  class SfqData {
    var virtualTime: int
    /** The finish tag recorded when the previous request was added. */
    var prevFinish: Option<int>
    /** Allowed outstanding requests are counted here. */
    var depth: int
    /** The circular list of processes: position 0 is its head, position i entry number i. */
    var queue: seq<SfqQueue>
    var osSfqq: Option<nat>
    var sfqqSize: int
    var sfqqTotalSeek: int
    var sfqrSize: int
    var requests: array<SfqRequest>
    var heapSize: int
    var heapLimitSize: int
    /** Requests handed to the device queue, in order. */
    var sent: seq<SfqRequest>

    ghost predicate Valid()
      reads this
    {
      && heapSize == 0 && heapLimitSize == sfqqSize == |queue| == requests.Length
      && (osSfqq.None? ==> sfqqTotalSeek == 0)
      && (osSfqq.Some? ==> osSfqq.value == sfqqTotalSeek && 1 <= sfqqTotalSeek <= sfqqSize)
      && 0 <= depth <= REQUEST_DEPTH + 1
      && sfqrSize == Waiting(FifosOf(queue)) + depth
      && (forall i, j :: 0 <= i < j < |queue| ==> queue[i].pid != queue[j].pid)
    }

    /** What the driver amounts to. */
    ghost function View(): (s: RoundRobin)
      reads this
      requires Valid()
      ensures InRange(s)
    {
      RoundRobin(FifosOf(queue), if osSfqq.None? then None else Some(osSfqq.value - 1), depth)
    }

    constructor ()
      ensures Valid() && fresh(requests) && View() == RoundRobin([], None, 0) && sent == []
    {
      virtualTime, prevFinish, depth := 0, None, 0;
      queue, osSfqq, sfqqSize, sfqqTotalSeek, sfqrSize := [], None, 0, 0, 0;
      requests := new SfqRequest[0];
      heapSize, heapLimitSize, sent := 0, 0, [];
    }

    /** sfq_set_request: the entry of process pid, which joins at the end if it is new. */
    method SetRequest(pid: nat) returns (i: nat)
      requires Valid()
      modifies `queue, `sfqqSize, `requests, `heapLimitSize
      ensures Valid() && i < |queue| && queue[i].pid == pid
      ensures if exists j :: 0 <= j < |old(queue)| && old(queue)[j].pid == pid then queue == old(queue)
              else queue == old(queue) + [SfqQueue(pid, [])] && View().fifos == old(View()).fifos + [[]]
      ensures View().last == old(View()).last
      ensures requests == old(requests) || fresh(requests)
    {
      i := 0;
      while i < |queue|
        modifies {}
        invariant i <= |queue|
        invariant forall j :: 0 <= j < i ==> queue[j].pid != pid
      {
        if queue[i].pid == pid {
          return;
        }
        i := i + 1;
      }
      hide FifosOf, Waiting;
      Join(pid);
    }

    /** A process unknown so far gets an entry at the tail, and the heap room for one more. */
    method Join(pid: nat)
      requires Valid() && forall j :: 0 <= j < |queue| ==> queue[j].pid != pid
      modifies `queue, `sfqqSize, `requests, `heapLimitSize
      ensures Valid() && queue == old(queue) + [SfqQueue(pid, [])]
      ensures View() == old(View()).(fifos := old(View()).fifos + [[]]) && fresh(requests)
    {
      hide Waiting;
      var larger := new SfqRequest[heapLimitSize + 1];
      forall j | 0 <= j < requests.Length {
        larger[j] := requests[j];
      }
      requests := larger;
      heapLimitSize := heapLimitSize + 1;
      sfqqSize := sfqqSize + 1;
      FifosJoin(queue, pid);
      queue := queue + [SfqQueue(pid, [])];
    }

    /** sfq_add_request, to the entry that sfq_set_request found. */
    method AddRequest(i: nat, rq: nat)
      requires Valid() && i < |queue|
      modifies `queue, `virtualTime, `prevFinish, `sfqrSize
      ensures Valid() && virtualTime == (if old(prevFinish).Some? && old(virtualTime) < old(prevFinish).value
                                         then old(prevFinish).value else old(virtualTime))
      ensures prevFinish == Some(virtualTime + REQUEST_LENGTH / REQUEST_WEIGHT)
      ensures var s := old(View());
              View() == s.(fifos := s.fifos[i := s.fifos[i] + [SfqRequest(rq, virtualTime, prevFinish.value)]])
    {
      var startTag := if prevFinish.Some? && virtualTime < prevFinish.value then prevFinish.value else virtualTime;
      var sfqr := SfqRequest(rq, startTag, startTag + REQUEST_LENGTH / REQUEST_WEIGHT);
      virtualTime := startTag;
      prevFinish := Some(sfqr.finishTag);
      FifosUpdate(queue, i, queue[i].queue + [sfqr]);
      queue := queue[i := queue[i].(queue := queue[i].queue + [sfqr])];
      sfqrSize := sfqrSize + 1;
    }

    /** sfq_completed; requests completed are requests in flight. */
    method Completed() returns (again: bool)
      requires Valid() && depth > 0
      modifies `depth, `sfqrSize
      ensures Valid() && View() == old(View()).(inFlight := old(View()).inFlight - 1)
      ensures again <==> Waiting(View().fifos) + View().inFlight > 0
    {
      depth := depth - 1;
      sfqrSize := sfqrSize - 1;
      again := sfqrSize > 0;
    }

    /** list_next_entry on the circular list. */
    function NextEntry(pos: nat): nat
      reads `queue
    {
      if pos >= |queue| then 0 else pos + 1
    }

    /** The cursor's move in sfq_dispatch; false if there is no process yet. */
    method Advance() returns (first: bool, some: bool)
      requires Valid()
      modifies `osSfqq, `sfqqTotalSeek
      ensures Valid() && some == (queue != []) && first == old(osSfqq).None?
      ensures if some then View() == old(View()).(last := Some(Turn(old(View())))) else View() == old(View())
      ensures some ==> osSfqq.Some?
    {
      first, some := osSfqq.None?, true;
      if first {
        if queue == [] {
          some := false;
          return;
        }
        osSfqq := Some(1);
        sfqqTotalSeek := sfqqTotalSeek + 1;
        return;
      }
      var pos := NextEntry(osSfqq.value);
      while sfqqTotalSeek == sfqqSize
        modifies `sfqqTotalSeek
        invariant 0 <= sfqqTotalSeek <= sfqqSize == |queue| && sfqqSize > 0
        invariant pos == NextEntry(sfqqTotalSeek)
        invariant sfqqTotalSeek == old(sfqqTotalSeek) || (sfqqTotalSeek == 0 && old(sfqqTotalSeek) == sfqqSize)
        decreases sfqqTotalSeek
      {
        sfqqTotalSeek := 0;
        pos := NextEntry(pos);
      }
      sfqqTotalSeek := sfqqTotalSeek + 1;
      // The cursor is an entry, never the head of the list.
      assert pos == sfqqTotalSeek && pos != 0;
      osSfqq := Some(pos);
    }

    /** Take the first request off the current entry's list. */
    method ListDel(sfqr: SfqRequest)
      requires |queue| > 0 && osSfqq.Some? && 1 <= osSfqq.value <= |queue|
      requires queue[osSfqq.value - 1].queue != [] && queue[osSfqq.value - 1].queue[0] == sfqr
      modifies `queue
      ensures var p := osSfqq.value - 1;
              queue == old(queue)[p := old(queue)[p].(queue := old(queue)[p].queue[1..])]
    {
      var p := osSfqq.value - 1;
      queue := queue[p := queue[p].(queue := queue[p].queue[1..])];
    }

    /** The rest of sfq_dispatch at entry p: through the heap, or past it when that has no room. */
    method Transmit(p: nat) returns (n: nat)
      requires Valid() && p < |queue| && osSfqq == Some(p + 1)
      requires queue[p].queue != [] ==> depth <= REQUEST_DEPTH
      modifies `queue, `depth, `heapSize, `sent, requests
      ensures Valid() && osSfqq == old(osSfqq)
      ensures var q := old(queue)[p].queue;
              if q == [] then n == 0 && sent == old(sent) && View() == old(View())
              else n == 1 && sent == old(sent) + [q[0]]
                   && View() == RoundRobin(old(View()).fifos[p := q[1..]], old(View()).last, old(View()).inFlight + 1)
    {
      hide FifosOf, Waiting, TagHeap.Insert, SiftUp;
      if queue[p].queue != [] {
        var sfqr := queue[p].queue[0];
        FifosUpdate(queue, p, queue[p].queue[1..]);
        if heapSize < heapLimitSize - 1 {
          ListDel(sfqr);
          SiftUpInArray(requests, heapSize, sfqr);
          OneEntry(requests[..0], sfqr);
          assert requests[0] == requests[..1][0];
          heapSize := heapSize + 1;
        }
      }
      if heapSize > 0 {
        var sfqr := requests[0];
        heapSize := heapSize - 1;
        requests[0] := requests[heapSize];
        // So the sift-down that would follow is never needed.
        assert !(heapSize > 1);
        sent := sent + [sfqr];
        depth := depth + 1;
        return 1;
      }
      if queue[p].queue != [] {
        var sfqr := queue[p].queue[0];
        ListDel(sfqr);
        sent := sent + [sfqr];
        depth := depth + 1;
        return 1;
      }
      return 0;
    }

    /** sfq_dispatch: what it does to the lists is one turn of the round robin. */
    method Dispatch() returns (n: nat)
      requires Valid()
      modifies this, requests
      ensures Valid() && requests == old(requests)
      ensures View() == Serve(old(View()))
      ensures var r := Served(old(View()));
              if r.Some? then n == 1 && sent == old(sent) + [r.value] else n == 0 && sent == old(sent)
    {
      hide Waiting;
      var first, some := Advance();
      if !some {
        return 0;
      }
      var p := osSfqq.value - 1;
      if (first || queue[p].queue != []) && depth > REQUEST_DEPTH {
        return 0;
      }
      n := Transmit(p);
    }
  }

  // ---------- runs with a fixed set of processes ----------

  datatype Step = Add(p: nat, r: SfqRequest) | Complete | Dispatch

  predicate CanStep(s: RoundRobin, e: Step) {
    match e {
      case Add(p, _) => p < |s.fifos|
      case Complete => s.inFlight > 0
      case Dispatch => true
    }
  }

  function Next(s: RoundRobin, e: Step): (s': RoundRobin)
    requires InRange(s) && CanStep(s, e)
    ensures InRange(s') && |s'.fifos| == |s.fifos|
  {
    match e {
      case Add(p, r) => s.(fifos := s.fifos[p := s.fifos[p] + [r]])
      case Complete => s.(inFlight := s.inFlight - 1)
      case Dispatch => Serve(s)
    }
  }

  /** A run that is possible from s and in which no dispatch finds the device full. */
  ghost predicate Unblocked(s: RoundRobin, es: seq<Step>)
    requires InRange(s)
    decreases |es|
  {
    es == [] ||
    (CanStep(s, es[0]) && (es[0].Dispatch? ==> s.inFlight <= REQUEST_DEPTH) && Unblocked(Next(s, es[0]), es[1..]))
  }

  /** What a run sends, in order. */
  ghost function Sent(s: RoundRobin, es: seq<Step>): seq<SfqRequest>
    requires InRange(s) && Unblocked(s, es)
    decreases |es|
  {
    if es == [] then []
    else
      var rest := Sent(Next(s, es[0]), es[1..]);
      if es[0].Dispatch? && Served(s).Some? then [Served(s).value] + rest else rest
  }

  function Calls(es: seq<Step>): nat {
    if es == [] then 0 else (if es[0].Dispatch? then 1 else 0) + Calls(es[1..])
  }

  /** How many dispatch calls it takes for the turn to come to process p. */
  function Distance(s: RoundRobin, p: nat): nat
    requires InRange(s) && p < |s.fifos|
  {
    if s.last.None? then p + 1
    else if p > s.last.value then p - s.last.value
    else p + |s.fifos| - s.last.value
  }

  /** The call, counted from now, that sends the request at place k of process p. */
  function CallOf(s: RoundRobin, p: nat, k: nat): int
    requires InRange(s) && p < |s.fifos|
  {
    k * |s.fifos| + Distance(s, p)
  }

  lemma CallBounds(s: RoundRobin, p: nat, k: nat)
    requires InRange(s) && p < |s.fifos|
    ensures 1 <= CallOf(s, p, k) <= (k + 1) * |s.fifos|
  {
    assert (k + 1) * |s.fifos| == k * |s.fifos| + |s.fifos|;
    NonNegative(k, |s.fifos|);
  }

  lemma NonNegative(k: nat, n: nat)
    ensures k * n >= 0
  {
  }

  lemma OneLess(k: nat, n: nat)
    requires k > 0
    ensures (k - 1) * n + n == k * n
  {
  }

  /** A call either sends the request or brings its call one closer. */
  lemma CallComesCloser(s: RoundRobin, p: nat, k: nat)
    requires InRange(s) && p < |s.fifos| && k < |s.fifos[p]| && s.inFlight <= REQUEST_DEPTH
    ensures var s' := Serve(s); var r := s.fifos[p][k];
            if CallOf(s, p, k) == 1 then Served(s) == Some(r)
            else if Turn(s) == p then k > 0 && k - 1 < |s'.fifos[p]| && s'.fifos[p][k - 1] == r
                                      && CallOf(s', p, k - 1) == CallOf(s, p, k) - 1
            else k < |s'.fifos[p]| && s'.fifos[p][k] == r && CallOf(s', p, k) == CallOf(s, p, k) - 1
  {
    NonNegative(k, |s.fifos|);
    if k > 0 {
      OneLess(k, |s.fifos|);
      NonNegative(k - 1, |s.fifos|);
    }
    if Turn(s) == p {
      assert Distance(s, p) == 1;
    } else {
      assert Distance(s, p) > 1;
    }
  }

  /**
   * With n processes, a request with k ahead of it in its process's FIFO is sent within
   * (k + 1) * n dispatch calls, whatever arrives or completes between them: exactly by
   * the call that CallOf names.
   */
  lemma {:induction false} SentOnCall(s: RoundRobin, es: seq<Step>, p: nat, k: nat)
    requires InRange(s) && Unblocked(s, es) && p < |s.fifos| && k < |s.fifos[p]|
    requires Calls(es) >= CallOf(s, p, k)
    ensures s.fifos[p][k] in Sent(s, es)
    decreases |es|
  {
    CallBounds(s, p, k);
    var s' := Next(s, es[0]);
    match es[0] {
      case Add(_, _) => SentOnCall(s', es[1..], p, k);
      case Complete => SentOnCall(s', es[1..], p, k);
      case Dispatch =>
        CallComesCloser(s, p, k);
        if CallOf(s, p, k) > 1 {
          SentOnCall(s', es[1..], p, if Turn(s) == p then k - 1 else k);
        }
    }
  }

  lemma SentWithin(s: RoundRobin, es: seq<Step>, p: nat, k: nat)
    requires InRange(s) && Unblocked(s, es) && p < |s.fifos| && k < |s.fifos[p]|
    requires Calls(es) >= (k + 1) * |s.fifos|
    ensures s.fifos[p][k] in Sent(s, es)
  {
    CallBounds(s, p, k);
    SentOnCall(s, es, p, k);
  }

  /** And not before: until that call the request is still waiting. */
  lemma {:induction false} WaitsUntilCall(s: RoundRobin, es: seq<Step>, p: nat, k: nat) returns (j: nat)
    requires InRange(s) && Unblocked(s, es) && p < |s.fifos| && k < |s.fifos[p]|
    requires Calls(es) < CallOf(s, p, k)
    ensures InRange(After(s, es)) && |After(s, es).fifos| == |s.fifos|
    ensures j < |After(s, es).fifos[p]| && After(s, es).fifos[p][j] == s.fifos[p][k]
    ensures CallOf(After(s, es), p, j) == CallOf(s, p, k) - Calls(es)
    decreases |es|
  {
    if es == [] {
      return k;
    }
    var s' := Next(s, es[0]);
    match es[0] {
      case Add(_, _) => j := WaitsUntilCall(s', es[1..], p, k);
      case Complete => j := WaitsUntilCall(s', es[1..], p, k);
      case Dispatch =>
        CallComesCloser(s, p, k);
        j := WaitsUntilCall(s', es[1..], p, if Turn(s) == p then k - 1 else k);
    }
  }

  ghost function After(s: RoundRobin, es: seq<Step>): RoundRobin
    requires InRange(s) && Unblocked(s, es)
    decreases |es|
  {
    if es == [] then s else After(Next(s, es[0]), es[1..])
  }
}
