/** The block layer's dispatch list and its count of requests still held by the scheduler. */
module Elevator {
  import opened Seqs
  import opened Requests

  /** Circular order from the boundary: sectors at or above it ascending, then those below. */
  predicate CircLe(a: Request, b: Request, boundary: nat) {
    if (a.pos < boundary) == (b.pos < boundary) then a.pos <= b.pos else b.pos < boundary
  }

  /** rq may be sorted across pos: same operation and direction, and pos is no barrier. */
  predicate Crossable(rq: Request, pos: Request) {
    rq.op == pos.op && rq.write == pos.write && !pos.stop
  }

  /** rq stays behind pos. */
  predicate StaysBehind(rq: Request, pos: Request, boundary: nat) {
    !Crossable(rq, pos) || CircLe(pos, rq, boundary)
  }

  /** Where rq goes: right behind the last request it stays behind. */
  function SortPos(q: seq<Request>, rq: Request, boundary: nat): (k: nat)
    ensures k <= |q|
    ensures k > 0 ==> StaysBehind(rq, q[k - 1], boundary)
    ensures forall m :: k <= m < |q| ==> !StaysBehind(rq, q[m], boundary)
  {
    if q == [] || StaysBehind(rq, q[|q| - 1], boundary) then |q|
    else SortPos(q[..|q| - 1], rq, boundary)
  }

  function DispatchSorted(q: seq<Request>, rq: Request, boundary: nat): seq<Request> {
    var k := SortPos(q, rq, boundary);
    q[..k] + [rq] + q[k..]
  }

  /** From i on: one operation and direction, no barrier. */
  ghost predicate Uniform(q: seq<Request>, i: nat) {
    forall m, n :: i <= m < |q| && i <= n < |q| ==> Crossable(q[m], q[n])
  }

  ghost predicate Circular(q: seq<Request>, boundary: nat) {
    forall i, j :: 0 <= i < j < |q| ==> CircLe(q[i], q[j], boundary)
  }

  /** The part after the last barrier or change of direction is in circular order. */
  ghost predicate RunSorted(q: seq<Request>, boundary: nat) {
    forall i :: 0 <= i < |q| && Uniform(q, i) ==> Circular(q[i..], boundary)
  }

  lemma UniformWithout(q: seq<Request>, k: nat, rq: Request, i: nat)
    requires k <= |q| && i <= |q| && Uniform(q[..k] + [rq] + q[k..], i)
    ensures Uniform(q, if i <= k then i else i - 1)
  {
    var u := q[..k] + [rq] + q[k..];
    assert forall m :: 0 <= m < |q| ==> q[m] == u[if m < k then m else m + 1];
  }

  lemma DispatchKeepsRunSorted(q: seq<Request>, rq: Request, boundary: nat)
    requires RunSorted(q, boundary)
    ensures RunSorted(DispatchSorted(q, rq, boundary), boundary)
  {
    var k, u := SortPos(q, rq, boundary), DispatchSorted(q, rq, boundary);
    forall i | 0 <= i < |u| && Uniform(u, i)
      ensures Circular(u[i..], boundary)
    {
      UniformWithout(q, k, rq, i);
      if i <= k {
        assert i < k ==> Crossable(u[k], u[k - 1]);
        RunStaysSorted(q, k, rq, i, boundary);
      } else {
        assert u[i..] == q[i - 1..];
      }
    }
  }

  lemma RunStaysSorted(q: seq<Request>, k: nat, rq: Request, i: nat, boundary: nat)
    requires i <= k <= |q| && Circular(q[i..], boundary)
    requires i < k ==> CircLe(q[k - 1], rq, boundary)
    requires forall m :: k <= m < |q| ==> CircLe(rq, q[m], boundary)
    ensures Circular((q[..k] + [rq] + q[k..])[i..], boundary)
  {
    DropInserted(q, k, rq, i);
    assert forall m :: k - i <= m < |q[i..]| ==> q[i..][m] == q[i + m];
    InsertKeepsCircular(q[i..], k - i, rq, boundary);
  }

  lemma DropInserted(q: seq<Request>, k: nat, rq: Request, i: nat)
    requires i <= k <= |q|
    ensures (q[..k] + [rq] + q[k..])[i..] == q[i..][..k - i] + [rq] + q[i..][k - i..]
  {
  }

  lemma InsertKeepsCircular(s: seq<Request>, k: nat, rq: Request, boundary: nat)
    requires k <= |s| && Circular(s, boundary)
    requires k > 0 ==> CircLe(s[k - 1], rq, boundary)
    requires forall m :: k <= m < |s| ==> CircLe(rq, s[m], boundary)
    ensures Circular(s[..k] + [rq] + s[k..], boundary)
  {
    forall m | 0 <= m < k
      ensures CircLe(s[m], rq, boundary)
    {
      assert m < k - 1 ==> CircLe(s[m], s[k - 1], boundary);
    }
  }

  /** A run of insertions at a fixed boundary. */
  function DispatchAll(q: seq<Request>, rs: seq<Request>, boundary: nat): seq<Request>
    decreases |rs|
  {
    if rs == [] then q else DispatchAll(DispatchSorted(q, rs[0], boundary), rs[1..], boundary)
  }

  lemma DispatchMultiset(q: seq<Request>, rq: Request, boundary: nat)
    ensures multiset(DispatchSorted(q, rq, boundary)) == multiset(q) + multiset{rq}
  {
    var k := SortPos(q, rq, boundary);
    assert q == q[..k] + q[k..];
  }

  /** Any run keeps the last run sorted and only adds the given requests. */
  lemma {:induction false} DispatchAllKeeps(q: seq<Request>, rs: seq<Request>, boundary: nat)
    requires RunSorted(q, boundary)
    ensures RunSorted(DispatchAll(q, rs, boundary), boundary)
    ensures multiset(DispatchAll(q, rs, boundary)) == multiset(q) + multiset(rs)
    decreases |rs|
  {
    if rs != [] {
      DispatchKeepsRunSorted(q, rs[0], boundary);
      DispatchMultiset(q, rs[0], boundary);
      DispatchAllKeeps(DispatchSorted(q, rs[0], boundary), rs[1..], boundary);
      assert rs == [rs[0]] + rs[1..];
    }
  }

  /** Entry b ends a run: it is a barrier, or the operation or direction changes behind it. */
  predicate Fence(q: seq<Request>, b: nat) {
    b < |q| && (q[b].stop || (b + 1 < |q| && (q[b].op != q[b + 1].op || q[b].write != q[b + 1].write)))
  }

  /** One insertion goes behind every fence, and the fence remains. */
  lemma InsertedBehindFence(q: seq<Request>, rq: Request, boundary: nat, b: nat)
    requires Fence(q, b)
    ensures b < SortPos(q, rq, boundary)
    ensures var u := DispatchSorted(q, rq, boundary); Fence(u, b) && u[..b + 1] == q[..b + 1]
  {
    var k, u := SortPos(q, rq, boundary), DispatchSorted(q, rq, boundary);
    if !q[b].stop {
      assert k == b + 1 ==> u[b + 1] == rq && Crossable(rq, q[b + 1]);
      assert k > b + 1 ==> u[b + 1] == q[b + 1];
    }
  }

  /**
   * No sequence of insertions disturbs anything up to and including a barrier or the last
   * entry before a change of operation or direction; all new requests go behind it.
   */
  lemma {:induction false} PrefixUntouched(q: seq<Request>, rs: seq<Request>, boundary: nat, b: nat)
    requires Fence(q, b)
    ensures var u := DispatchAll(q, rs, boundary);
            && |u| == |q| + |rs| && Fence(u, b)
            && u[..b + 1] == q[..b + 1]
            && multiset(u[b + 1..]) == multiset(q[b + 1..]) + multiset(rs)
    decreases |rs|
  {
    if rs != [] {
      var u := DispatchSorted(q, rs[0], boundary);
      InsertedBehindFence(q, rs[0], boundary, b);
      PrefixUntouched(u, rs[1..], boundary, b);
      TailGains(q, rs[0], boundary, b);
      assert rs == [rs[0]] + rs[1..];
    }
  }

  lemma TailGains(q: seq<Request>, rq: Request, boundary: nat, b: nat)
    requires Fence(q, b)
    ensures multiset(DispatchSorted(q, rq, boundary)[b + 1..]) == multiset(q[b + 1..]) + multiset{rq}
  {
    var u := DispatchSorted(q, rq, boundary);
    InsertedBehindFence(q, rq, boundary, b);
    DispatchMultiset(q, rq, boundary);
    assert u == q[..b + 1] + u[b + 1..] && q == q[..b + 1] + q[b + 1..];
    assert multiset(u[b + 1..]) == multiset(u) - multiset(q[..b + 1]);
  }

  /**
   * Stability: insertion keeps the relative order of everything already listed, and rq
   * goes behind every crossable request at its own circular position.
   */
  lemma DispatchStable(q: seq<Request>, rq: Request, boundary: nat)
    ensures var u, k := DispatchSorted(q, rq, boundary), SortPos(q, rq, boundary);
            && u[k] == rq && u[..k] == q[..k] && u[k + 1..] == q[k..]
            && (forall m :: 0 <= m < |q| && q[m].pos == rq.pos && Crossable(rq, q[m]) ==> m < k)
            && (forall m :: 0 <= m < |q| && !Crossable(rq, q[m]) ==> m < k)
  {
  }

  /** Behind a barrier, requests of one kind come out as one sorted permutation. */
  lemma BatchComesOutSorted(q: seq<Request>, rs: seq<Request>, boundary: nat)
    requires q == [] || q[|q| - 1].stop
    requires forall i, j :: 0 <= i < |rs| && 0 <= j < |rs| ==> Crossable(rs[i], rs[j])
    ensures |DispatchAll(q, rs, boundary)| == |q| + |rs|
    ensures DispatchAll(q, rs, boundary)[..|q|] == q
    ensures multiset(DispatchAll(q, rs, boundary)[|q|..]) == multiset(rs)
    ensures Circular(DispatchAll(q, rs, boundary)[|q|..], boundary)
  {
    BatchTail(q, rs, boundary);
    var u := DispatchAll(q, rs, boundary);
    TailUniform(u, |q|, rs);
    assert RunSorted(u, boundary) by {
      NothingToSort(q, boundary);
      DispatchAllKeeps(q, rs, boundary);
    }
    if |q| == |u| {
      assert u[|q|..] == [];
    }
  }

  lemma NothingToSort(q: seq<Request>, boundary: nat)
    requires q == [] || q[|q| - 1].stop
    ensures RunSorted(q, boundary)
  {
    assert forall i :: 0 <= i < |q| ==> !Crossable(q[i], q[|q| - 1]);
  }

  lemma BatchTail(q: seq<Request>, rs: seq<Request>, boundary: nat)
    requires q == [] || q[|q| - 1].stop
    ensures var u := DispatchAll(q, rs, boundary);
            |u| == |q| + |rs| && u[..|q|] == q && multiset(u[|q|..]) == multiset(rs)
  {
    hide RunSorted, DispatchAll;
    var u := DispatchAll(q, rs, boundary);
    NothingToSort(q, boundary);
    DispatchAllKeeps(q, rs, boundary);
    assert |u| == |multiset(u)| == |q| + |rs|;
    if q != [] {
      PrefixUntouched(q, rs, boundary, |q| - 1);
    }
    assert u == q + u[|q|..];
    assert multiset(u[|q|..]) == multiset(u) - multiset(q);
  }

  lemma TailUniform(u: seq<Request>, k: nat, rs: seq<Request>)
    requires k <= |u| && multiset(u[k..]) == multiset(rs)
    requires forall i, j :: 0 <= i < |rs| && 0 <= j < |rs| ==> Crossable(rs[i], rs[j])
    ensures Uniform(u, k)
  {
    forall m | k <= m < |u|
      ensures u[m] in rs
    {
      assert u[m] == u[k..][m - k];
      assert u[k..][m - k] in multiset(u[k..]);
    }
  }

  /**
   * What a tail insertion with the boundary behind rq means for the next sorted request: it
   * goes in front of rq if and only if the two may cross and it does not start inside rq,
   * which must not be empty.
   */
  lemma TailStaysLast(q: seq<Request>, rq: Request, x: Request)
    ensures var boundary := rq.pos + rq.sectors;
            SortPos(q + [rq], x, boundary) <= |q| <==>
            Crossable(x, rq) && rq.sectors > 0 && !(rq.pos <= x.pos < boundary)
  {
    assert (q + [rq])[|q|] == rq;
  }

  /** So rq stays last over any sequence of such requests. */
  lemma {:induction false} TailStaysLastOverRuns(q: seq<Request>, rq: Request, rs: seq<Request>)
    requires rq.sectors > 0
    requires forall i :: 0 <= i < |rs| ==> Crossable(rs[i], rq) && !(rq.pos <= rs[i].pos < rq.pos + rq.sectors)
    ensures var u := DispatchAll(q + [rq], rs, rq.pos + rq.sectors);
            |u| == |q| + 1 + |rs| && u[|q| + |rs|] == rq
    decreases |rs|
  {
    if rs != [] {
      var p := InsertedBefore(q, rq, rs[0]);
      hide DispatchSorted, Crossable;
      TailStaysLastOverRuns(p, rq, rs[1..]);
    }
  }

  lemma InsertedBefore(q: seq<Request>, rq: Request, x: Request) returns (p: seq<Request>)
    requires rq.sectors > 0 && Crossable(x, rq) && !(rq.pos <= x.pos < rq.pos + rq.sectors)
    ensures |p| == |q| + 1 && DispatchSorted(q + [rq], x, rq.pos + rq.sectors) == p + [rq]
  {
    var k := SortPos(q + [rq], x, rq.pos + rq.sectors);
    TailStaysLast(q, rq, x);
    hide SortPos, Crossable;
    p := q[..k] + [x] + q[k..];
    assert (q + [rq])[..k] == q[..k] && (q + [rq])[k..] == q[k..] + [rq];
  }

  /** The request queue: dispatch list, one-way boundary and the sorted count. */
  class RequestQueue {
    var queueHead: seq<Request>
    var endSector: nat
    var nrSorted: int
    var lastMerge: Option<nat>

    constructor ()
      ensures queueHead == [] && endSector == 0 && nrSorted == 0 && lastMerge == None
    {
      queueHead, endSector, nrSorted, lastMerge := [], 0, 0, None;
    }

    /** The INSERT_SORT case: count the request before the scheduler sees it. */
    method AddSorted(rq: Request, mergeable: bool)
      modifies this
      ensures nrSorted == old(nrSorted) + 1
      ensures queueHead == old(queueHead) && endSector == old(endSector)
      ensures lastMerge == if mergeable && old(lastMerge).None? then Some(rq.id) else old(lastMerge)
    {
      nrSorted := nrSorted + 1;
      if mergeable && lastMerge == None {
        lastMerge := Some(rq.id);
      }
    }

    /** `next` was merged into `rq`; it leaves the count if it had been counted. */
    method MergedRequests(rq: Request, nextSorted: bool)
      modifies this
      ensures nrSorted == old(nrSorted) - if nextSorted then 1 else 0
      ensures queueHead == old(queueHead) && endSector == old(endSector) && lastMerge == Some(rq.id)
    {
      if nextSorted {
        nrSorted := nrSorted - 1;
      }
      lastMerge := Some(rq.id);
    }

    /** Scan backwards and link rq behind the first entry it must not cross. */
    method DispatchSort(rq: Request)
      modifies this
      ensures queueHead == DispatchSorted(old(queueHead), rq, old(endSector))
      ensures nrSorted == old(nrSorted) - 1 && endSector == old(endSector)
      ensures lastMerge == if old(lastMerge) == Some(rq.id) then None else old(lastMerge)
    {
      if lastMerge == Some(rq.id) {
        lastMerge := None;
      }
      nrSorted := nrSorted - 1;
      var boundary := endSector;
      var entry := |queueHead|;
      while entry > 0
        invariant 0 <= entry <= |queueHead|
        invariant forall m :: entry <= m < |queueHead| ==> !StaysBehind(rq, queueHead[m], boundary)
      {
        var pos := queueHead[entry - 1];
        if rq.op != pos.op { break; }
        if rq.write != pos.write { break; }
        if pos.stop { break; }
        if rq.pos >= boundary {
          if pos.pos < boundary {
            entry := entry - 1;
            continue;
          }
        } else {
          if pos.pos >= boundary { break; }
        }
        if rq.pos >= pos.pos { break; }
        entry := entry - 1;
      }
      SortPosUnique(queueHead, rq, boundary, entry);
      queueHead := queueHead[..entry] + [rq] + queueHead[entry..];
    }

    method DispatchAddTail(rq: Request)
      modifies this
      ensures queueHead == old(queueHead) + [rq] && endSector == rq.pos + rq.sectors
      ensures nrSorted == old(nrSorted) - 1
      ensures lastMerge == if old(lastMerge) == Some(rq.id) then None else old(lastMerge)
    {
      if lastMerge == Some(rq.id) {
        lastMerge := None;
      }
      nrSorted := nrSorted - 1;
      endSector := rq.pos + rq.sectors;
      queueHead := queueHead + [rq];
    }
  }

  lemma SortPosUnique(q: seq<Request>, rq: Request, boundary: nat, k: nat)
    requires k <= |q|
    requires k > 0 ==> StaysBehind(rq, q[k - 1], boundary)
    requires forall m :: k <= m < |q| ==> !StaysBehind(rq, q[m], boundary)
    ensures SortPos(q, rq, boundary) == k
  {
    assert !(SortPos(q, rq, boundary) < k);
  }
}
