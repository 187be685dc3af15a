/**
 * The start-time fair queueing driver with one global heap: start tags leave in order over
 * a whole run, as long as every request is added right after its tags are set.
 */
module Sfq14 {
  import opened Seqs
  import opened Ordered
  import opened TagHeap

  const REQUEST_LENGTH := 100
  const REQUEST_WEIGHT := 1
  const REQUEST_DEPTH := 1

  const TagOf: SfqRequest -> int := (r: SfqRequest) => r.startTag

  /** The waiting requests as the heap lays them out, and the tags set for each request. */
  datatype State = State(heap: seq<SfqRequest>, virtualTime: int, depth: int, tags: map<nat, SfqRequest>)

  const INITIAL := State([], 0, 0, map[])

  /** No tag, set or waiting, is ahead of the virtual time. */
  ghost predicate Inv(s: State) {
    && TagHeap.HeapOrdered(s.heap)
    && 0 <= s.virtualTime && 0 <= s.depth <= REQUEST_DEPTH + 1
    && (forall r :: r in s.heap ==> 0 <= r.startTag <= s.virtualTime)
    && (forall q :: q in s.tags ==> 0 <= s.tags[q].startTag <= s.virtualTime)
  }

  /** sfq_set_request: the virtual time catches up with the finish tag at the end of the array. */
  function Tagged(s: State, rq: nat): State {
    var v := if s.heap != [] && s.heap[0].startTag >= 0 && s.virtualTime < s.heap[|s.heap| - 1].finishTag
             then s.heap[|s.heap| - 1].finishTag else s.virtualTime;
    s.(virtualTime := v, tags := s.tags[rq := SfqRequest(rq, v, v + REQUEST_LENGTH / REQUEST_WEIGHT)])
  }

  function Added(s: State, rq: nat): State
    requires rq in s.tags
  {
    if s.tags[rq].startTag >= 0 then s.(heap := TagHeap.Insert(s.heap, s.tags[rq])) else s
  }

  predicate Sends(s: State) {
    s.heap != [] && s.depth <= REQUEST_DEPTH
  }

  function Dispatched(s: State): State {
    if Sends(s) then s.(heap := RemoveRoot(s.heap), depth := s.depth + 1) else s
  }

  lemma TaggedKeepsInv(s: State, rq: nat)
    requires Inv(s)
    ensures Inv(Tagged(s, rq)) && Tagged(s, rq).virtualTime >= s.virtualTime
    ensures Tagged(s, rq).tags[rq].startTag == Tagged(s, rq).virtualTime
  {
    if s.heap != [] {
      assert s.heap[0] in s.heap;
    }
  }

  lemma AddedKeepsInv(s: State, rq: nat)
    requires Inv(s) && rq in s.tags
    ensures Inv(Added(s, rq))
    ensures forall r :: r in Added(s, rq).heap <==> r in s.heap || r == s.tags[rq]
    ensures multiset(Added(s, rq).heap) == multiset(s.heap) + multiset{s.tags[rq]}
  {
    InsertOrders(s.heap, s.tags[rq]);
    var h := Added(s, rq).heap;
    assert forall r :: r in h <==> r in multiset(h);
  }

  lemma DispatchedKeepsInv(s: State)
    requires Inv(s)
    ensures Inv(Dispatched(s))
    ensures Sends(s) ==> multiset(s.heap) == multiset{s.heap[0]} + multiset(Dispatched(s).heap)
    ensures forall r :: r in Dispatched(s).heap ==> r in s.heap
    ensures s.heap != [] ==> forall r :: r in s.heap ==> s.heap[0].startTag <= r.startTag
  {
    if s.heap != [] {
      RemoveRootOrders(s.heap);
      RootFirst(s.heap);
    }
  }

  // ---------- the driver's data ----------

  class SfqData {
    var virtualTime: int
    var size: nat
    var requests: array<SfqRequest>
    var depth: int
    /** The private data of each request: its tags. */
    var tags: map<nat, SfqRequest>

    ghost predicate Sized()
      reads this
    {
      size <= requests.Length && 0 < requests.Length
    }

    ghost function View(): State
      reads this, requests
      requires Sized()
    {
      State(requests[..size], virtualTime, depth, tags)
    }

    ghost predicate Valid()
      reads this, requests
    {
      Sized() && Inv(View())
    }

    constructor ()
      ensures Valid() && fresh(requests) && View() == INITIAL
    {
      requests := new SfqRequest[1];
      virtualTime, size, depth, tags := 0, 0, 0, map[];
    }

    /** krealloc: the array changes its length and keeps what fits. */
    method Krealloc(n: nat)
      requires 0 < n && size <= n && size <= requests.Length
      modifies `requests
      ensures fresh(requests) && requests.Length == n && requests[..size] == old(requests[..size])
    {
      var a := new SfqRequest[n];
      forall j | 0 <= j < n && j < requests.Length {
        a[j] := requests[j];
      }
      requests := a;
    }

    /** sfq_set_request. */
    method SetRequest(rq: nat)
      requires Valid()
      modifies `virtualTime, `tags
      ensures Valid() && View() == Tagged(old(View()), rq)
    {
      TaggedKeepsInv(View(), rq);
      var startTag := virtualTime;
      if size > 0 && requests[0].startTag >= 0 {
        var latestFinishTag := requests[size - 1].finishTag;
        if virtualTime < latestFinishTag {
          virtualTime := latestFinishTag;
        }
        startTag := virtualTime;
      }
      tags := tags[rq := SfqRequest(rq, startTag, startTag + REQUEST_LENGTH / REQUEST_WEIGHT)];
    }

    /** sfq_add_request: every access of the sift-up stays inside the array. */
    method AddRequest(rq: nat)
      requires Valid() && rq in tags
      modifies `requests, `size, requests
      ensures Valid() && View() == Added(old(View()), rq)
      ensures requests == old(requests) || fresh(requests)
    {
      ghost var s := View();
      assert Inv(Added(s, rq)) by { AddedKeepsInv(s, rq); }
      hide Inv, TagHeap.Insert;
      if tags[rq].startTag >= 0 {
        PutInHeap(tags[rq]);
      }
    }

    /** Make room for one more entry, and sift it up. */
    method PutInHeap(sfqr: SfqRequest)
      requires Sized()
      modifies `requests, `size, requests
      ensures Sized() && requests[..size] == TagHeap.Insert(old(requests[..size]), sfqr)
      ensures requests == old(requests) || fresh(requests)
    {
      hide TagHeap.Insert;
      if size > 0 {
        Krealloc(size + 1);
      }
      SiftUpInArray(requests, size, sfqr);
      size := size + 1;
    }

    /** sfq_dispatch: the smallest tag leaves, if the device has room. */
    method Dispatch() returns (sent: Option<SfqRequest>)
      requires Valid()
      modifies this, requests
      ensures Valid() && View() == Dispatched(old(View()))
      ensures sent == if Sends(old(View())) then Some(old(View()).heap[0]) else None
      ensures requests == old(requests) || fresh(requests)
    {
      ghost var s := View();
      assert Inv(Dispatched(s)) by { DispatchedKeepsInv(s); }
      hide Inv, RemoveRoot;
      sent := None;
      if size > 0 && depth <= REQUEST_DEPTH {
        sent := Some(requests[0]);
        TakeRoot();
        depth := depth + 1;
      }
      assert View() == Dispatched(s);
    }

    /** The last entry takes the root's place and sinks to where it belongs. */
    method TakeRoot()
      requires Sized() && size > 0
      modifies `requests, `size, requests
      ensures Sized() && requests[..size] == RemoveRoot(old(requests[..size]))
      ensures requests == old(requests) || fresh(requests)
    {
      hide SiftDown;
      ghost var h := requests[..size];
      size := size - 1;
      requests[0] := requests[size];
      if size > 1 {
        assert requests[..size] == [h[size]] + h[1..size];
        Krealloc(size);
        Heapify(requests, size, 0);
        assert requests[..requests.Length] == requests[..];
      } else if size == 1 {
        assert requests[..size] == [h[size]] + h[1..size];
        NothingBelow(requests[..1]);
      }
    }

    /** sfq_completed, for a request that is in flight. */
    method Completed() returns (again: bool)
      requires Valid() && depth > 0
      modifies `depth
      ensures Valid() && View() == old(View()).(depth := old(View()).depth - 1) && again == (depth > 0)
    {
      depth := depth - 1;
      again := depth > 0;
    }
  }

  lemma NothingBelow(h: seq<SfqRequest>)
    requires |h| == 1
    ensures SiftDown(h, 0) == h
  {
  }

  // ---------- runs ----------

  datatype Step = Set(rq: nat) | Add(rq: nat) | Dispatch | Complete

  predicate CanStep(s: State, e: Step) {
    (e.Add? ==> e.rq in s.tags) && (e.Complete? ==> s.depth > 0)
  }

  function Next(s: State, e: Step): State
    requires CanStep(s, e)
  {
    match e {
      case Set(rq) => Tagged(s, rq)
      case Add(rq) => Added(s, rq)
      case Dispatch => Dispatched(s)
      case Complete => s.(depth := s.depth - 1)
    }
  }

  lemma NextKeepsInv(s: State, e: Step)
    requires Inv(s) && CanStep(s, e)
    ensures Inv(Next(s, e))
  {
    match e {
      case Set(rq) => TaggedKeepsInv(s, rq);
      case Add(rq) => AddedKeepsInv(s, rq);
      case Dispatch => DispatchedKeepsInv(s);
      case Complete =>
    }
  }

  ghost predicate Possible(s: State, es: seq<Step>)
    decreases |es|
  {
    es == [] || (CanStep(s, es[0]) && Possible(Next(s, es[0]), es[1..]))
  }

  /** The requests a run dispatches, in order. */
  ghost function Sent(s: State, es: seq<Step>): seq<SfqRequest>
    requires Possible(s, es)
    decreases |es|
  {
    if es == [] then []
    else
      var rest := Sent(Next(s, es[0]), es[1..]);
      if es[0].Dispatch? && Sends(s) then [s.heap[0]] + rest else rest
  }

  /** Every request is added right after its tags are set. */
  ghost predicate Adjacent(es: seq<Step>)
    decreases |es|
  {
    es == []
    || ((es[0].Dispatch? || es[0].Complete?) && Adjacent(es[1..]))
    || (|es| > 1 && es[0].Set? && es[1] == Add(es[0].rq) && Adjacent(es[2..]))
  }

  /** Nothing waiting has a smaller tag than what was last sent. */
  ghost predicate NoneBelow(s: State, last: int) {
    forall r :: r in s.heap ==> last <= r.startTag
  }

  /** Each request is added before any request with a larger tag is sent. */
  ghost predicate NoLateAdd(s: State, es: seq<Step>, last: int)
    requires Possible(s, es)
    decreases |es|
  {
    es == []
    || ((es[0].Add? ==> last <= s.tags[es[0].rq].startTag)
        && NoLateAdd(Next(s, es[0]), es[1..], if es[0].Dispatch? && Sends(s) then s.heap[0].startTag else last))
  }

  /** Adding a request preserves that exactly when its own tag is not smaller. */
  lemma AddKeepsOrder(s: State, rq: nat, last: int)
    requires Inv(s) && rq in s.tags && NoneBelow(s, last)
    ensures NoneBelow(Added(s, rq), last) <==> last <= s.tags[rq].startTag
  {
    AddedKeepsInv(s, rq);
  }

  /** Without late additions the start tags dispatched over a whole run never decrease. */
  lemma {:induction false} TagsLeaveInOrder(s: State, es: seq<Step>, last: int)
    requires Inv(s) && Possible(s, es) && NoLateAdd(s, es, last) && NoneBelow(s, last)
    ensures Sorted(TagOf, Sent(s, es))
    ensures forall r :: r in Sent(s, es) ==> last <= r.startTag
    decreases |es|
  {
    if es != [] {
      var s' := Next(s, es[0]);
      NextKeepsInv(s, es[0]);
      if es[0].Dispatch? && Sends(s) {
        DispatchedKeepsInv(s);
        assert s.heap[0] in s.heap;
        TagsLeaveInOrder(s', es[1..], s.heap[0].startTag);
        var rest := Sent(s', es[1..]);
        assert forall j :: 0 <= j < |rest| ==> rest[j] in rest;
      } else {
        if es[0].Add? {
          AddKeepsOrder(s, es[0].rq, last);
        }
        TagsLeaveInOrder(s', es[1..], last);
      }
    }
  }

  ghost function After(s: State, es: seq<Step>): State
    requires Possible(s, es)
    decreases |es|
  {
    if es == [] then s else After(Next(s, es[0]), es[1..])
  }

  /** A run that empties the heap has sent everything that was waiting. */
  lemma {:induction false} EverythingLeaves(s: State, es: seq<Step>, r: SfqRequest)
    requires Inv(s) && Possible(s, es) && After(s, es).heap == [] && r in s.heap
    ensures r in Sent(s, es)
    decreases |es|
  {
    var s' := Next(s, es[0]);
    NextKeepsInv(s, es[0]);
    match es[0] {
      case Set(_) => EverythingLeaves(s', es[1..], r);
      case Complete => EverythingLeaves(s', es[1..], r);
      case Add(rq) =>
        AddedKeepsInv(s, rq);
        EverythingLeaves(s', es[1..], r);
      case Dispatch =>
        DispatchedKeepsInv(s);
        if Sends(s) && r != s.heap[0] {
          assert r in multiset(s.heap) && r in multiset(s'.heap);
        }
        if !Sends(s) || r != s.heap[0] {
          EverythingLeaves(s', es[1..], r);
        }
    }
  }

  /** Conversely, tags that left in order from a run that empties the heap had no late addition. */
  lemma {:induction false} OrderMeansNoLateAdd(s: State, es: seq<Step>, last: int)
    requires Inv(s) && Possible(s, es) && After(s, es).heap == []
    requires Sorted(TagOf, Sent(s, es)) && forall r :: r in Sent(s, es) ==> last <= r.startTag
    ensures NoLateAdd(s, es, last)
    decreases |es|
  {
    if es != [] {
      var s', out := Next(s, es[0]), Sent(s, es);
      NextKeepsInv(s, es[0]);
      if es[0].Dispatch? && Sends(s) {
        var rest := Sent(s', es[1..]);
        assert rest == out[1..];
        forall r | r in rest
          ensures s.heap[0].startTag <= r.startTag
        {
          var j :| 0 <= j < |rest| && rest[j] == r;
          assert TagOf(out[0]) <= TagOf(out[j + 1]);
        }
        OrderMeansNoLateAdd(s', es[1..], s.heap[0].startTag);
      } else {
        if es[0].Add? {
          AddedKeepsInv(s, es[0].rq);
          EverythingLeaves(s', es[1..], s.tags[es[0].rq]);
        }
        OrderMeansNoLateAdd(s', es[1..], last);
      }
    }
  }

  lemma {:induction false} TagsAreNonNegative(s: State, es: seq<Step>)
    requires Inv(s) && Possible(s, es)
    ensures forall r :: r in Sent(s, es) ==> 0 <= r.startTag
    decreases |es|
  {
    if es != [] {
      NextKeepsInv(s, es[0]);
      TagsAreNonNegative(Next(s, es[0]), es[1..]);
    }
  }

  /** From the start to an empty heap, tags leave in order if and only if no addition is late. */
  lemma InOrderIffNoLateAdd(es: seq<Step>)
    requires Possible(INITIAL, es) && After(INITIAL, es).heap == []
    ensures Sorted(TagOf, Sent(INITIAL, es)) <==> NoLateAdd(INITIAL, es, 0)
  {
    TagsAreNonNegative(INITIAL, es);
    if NoLateAdd(INITIAL, es, 0) {
      TagsLeaveInOrder(INITIAL, es, 0);
    }
    if Sorted(TagOf, Sent(INITIAL, es)) {
      OrderMeansNoLateAdd(INITIAL, es, 0);
    }
  }

  /** A request added right after its tags are set is never late. */
  lemma {:induction false} AdjacentIsNotLate(s: State, es: seq<Step>, last: int)
    requires Inv(s) && Possible(s, es) && Adjacent(es) && last <= s.virtualTime
    ensures NoLateAdd(s, es, last)
    decreases |es|
  {
    if es != [] {
      var s' := Next(s, es[0]);
      NextKeepsInv(s, es[0]);
      if es[0].Set? {
        TaggedKeepsInv(s, es[0].rq);
        NextKeepsInv(s', es[1]);
        assert es[1..][1..] == es[2..] && es[1..][0] == es[1];
        AdjacentIsNotLate(Next(s', es[1]), es[2..], last);
      } else if es[0].Dispatch? && Sends(s) {
        assert s.heap[0] in s.heap;
        AdjacentIsNotLate(s', es[1..], s.heap[0].startTag);
      } else {
        AdjacentIsNotLate(s', es[1..], last);
      }
    }
  }

  /** So if each request is added right after its tags are set, the tags leave in order. */
  lemma AdjacentLeavesInOrder(es: seq<Step>)
    requires Possible(INITIAL, es) && Adjacent(es)
    ensures Sorted(TagOf, Sent(INITIAL, es))
  {
    AdjacentIsNotLate(INITIAL, es, 0);
    TagsLeaveInOrder(INITIAL, es, 0);
  }

  lemma Prepend(s: State, e: Step, es: seq<Step>)
    requires CanStep(s, e) && Possible(Next(s, e), es)
    ensures Possible(s, [e] + es)
    ensures Sent(s, [e] + es) == (if e.Dispatch? && Sends(s) then [s.heap[0]] else []) + Sent(Next(s, e), es)
  {
    assert ([e] + es)[1..] == es;
  }

  /** When arrivals overlap, a request added late can leave after one with a larger tag. */
  lemma OverlapBreaksOrder() returns (es: seq<Step>)
    ensures Possible(INITIAL, es) && !Sorted(TagOf, Sent(INITIAL, es))
  {
    var s3, s5 := TwoWaiting();
    es := LateAdd(s5);
    hide Possible, Sent, TagHeap.Insert, Tagged;
    Prepend(Next(s3, Set(3)), Add(3), es);
    Prepend(s3, Set(3), [Add(3)] + es);
    es := [Set(3)] + ([Add(3)] + es);
    Prepend(Next(Next(INITIAL, Set(1)), Set(2)), Add(2), es);
    Prepend(Next(INITIAL, Set(1)), Set(2), [Add(2)] + es);
    Prepend(INITIAL, Set(1), [Set(2)] + ([Add(2)] + es));
    es := [Set(1)] + ([Set(2)] + ([Add(2)] + es));
    assert Sent(INITIAL, es)[1].startTag == 100 && Sent(INITIAL, es)[2].startTag == 0;
  }

  /** Requests 2 and 3 have arrived while request 1 has only had its tags set. */
  lemma TwoWaiting() returns (s3: State, s5: State)
    ensures s3 == Next(Next(Next(INITIAL, Set(1)), Set(2)), Add(2)) && s5 == Next(Next(s3, Set(3)), Add(3))
    ensures s5.heap == [SfqRequest(2, 0, 100), SfqRequest(3, 100, 200)] && s5.depth == 0
    ensures 1 in s5.tags && s5.tags[1] == SfqRequest(1, 0, 100)
  {
    s3 := Next(Next(Next(INITIAL, Set(1)), Set(2)), Add(2));
    assert s3.heap == [SfqRequest(2, 0, 100)];
    s5 := Next(Next(s3, Set(3)), Add(3));
    assert s5.heap == [SfqRequest(2, 0, 100), SfqRequest(3, 100, 200)];
  }

  lemma LateAdd(s: State) returns (es: seq<Step>)
    requires s.heap == [SfqRequest(2, 0, 100), SfqRequest(3, 100, 200)] && s.depth == 0
    requires 1 in s.tags && s.tags[1] == SfqRequest(1, 0, 100)
    ensures Possible(s, es) && Sent(s, es) == [s.heap[0], s.heap[1], s.tags[1]]
  {
    var s1 := Next(s, Dispatch);
    var s2 := Next(s1, Dispatch);
    var s3 := Next(s2, Complete);
    var s4 := Next(s3, Add(1));
    assert s1.heap == [s.heap[1]];
    assert s4.heap == [s.tags[1]];
    Prepend(s4, Dispatch, []);
    assert Sent(Next(s4, Dispatch), []) == [];
    hide Possible, Sent, TagHeap.Insert, RemoveRoot;
    es := [Dispatch];
    Prepend(s3, Add(1), es);
    es := [Add(1)] + es;
    Prepend(s2, Complete, es);
    es := [Complete] + es;
    Prepend(s1, Dispatch, es);
    es := [Dispatch] + es;
    Prepend(s, Dispatch, es);
    es := [Dispatch] + es;
  }
}
