/**
 * The pending requests of one CFQ queue, held twice: in sector order and in arrival
 * order, with a cached next request and a counter per direction class.
 */
module RequestIndex {
  import opened Seqs
  import opened Ordered
  import opened Requests
  import opened RequestChoice

  /** sort_list, fifo (with the expiry time per request id), next_rq, queued[]. */
  datatype Index = Index(sort: seq<Request>, fifo: seq<Request>, fifoTime: map<nat, nat>,
                         next: Option<Request>, queuedAsync: int, queuedSync: int)

  const EMPTY := Index([], [], map[], None, 0, 0)

  ghost predicate SameMembers(a: seq<Request>, b: seq<Request>) {
    forall r :: r in a <==> r in b
  }

  ghost predicate Listed(x: Index) {
    && Sorted(PosOf, x.sort)
    && DistinctIds(x.sort)
    && NoDup(x.fifo)
    && SameMembers(x.sort, x.fifo)
    && (forall r :: r in x.fifo ==> r.id in x.fifoTime)
    && x.queuedAsync == CountSync(x.sort, false)
    && x.queuedSync == CountSync(x.sort, true)
  }

  ghost predicate Inv(x: Index) {
    && Listed(x)
    && (x.next.None? <==> x.sort == [])
    && (x.next.Some? ==> x.next.value in x.sort)
  }

  function AddCount(x: Index, sync: bool, d: int): Index {
    if sync then x.(queuedSync := x.queuedSync + d) else x.(queuedAsync := x.queuedAsync + d)
  }

  function Queued(x: Index, sync: bool): int {
    if sync then x.queuedSync else x.queuedAsync
  }

  /** cfq_add_rq_rb, without the round-robin side. */
  function AddRqRb(t: Tunables, x: Index, r: Request, last: nat): Index {
    var y := AddCount(x, r.sync, 1).(sort := Insert(PosOf, x.sort, r));
    y.(next := ChooseReq(t, x.next, Some(r), last))
  }

  /** cfq_insert_request's own part: stamp the expiry time and join the FIFO tail. */
  function InsertRequest(t: Tunables, x: Index, r: Request, expires: nat, last: nat): Index {
    AddRqRb(t, x.(fifo := x.fifo + [r], fifoTime := x.fifoTime[r.id := expires]), r, last)
  }

  /** cfq_del_rq_rb, without the priority-tree side. */
  function DelRqRb(x: Index, r: Request): Index {
    AddCount(x, r.sync, -1).(sort := Remove(x.sort, r))
  }

  /** cfq_remove_request. */
  function RemoveRequest(t: Tunables, x: Index, r: Request): Index
    requires r in x.sort
  {
    var y := if x.next == Some(r) then x.(next := FindNext(t, x.sort, IndexOf(x.sort, r))) else x;
    DelRqRb(y.(fifo := Remove(y.fifo, r)), r)
  }

  /** cfq_dispatch_insert: the next request is always searched from the dispatched one. */
  function DispatchRemove(t: Tunables, x: Index, r: Request): Index
    requires r in x.sort
  {
    RemoveRequest(t, x.(next := FindNext(t, x.sort, IndexOf(x.sort, r))), r)
  }

  /** list_move(a, b): unlink a and put it right behind b. */
  function MoveBehind(s: seq<Request>, a: Request, b: Request): seq<Request>
    requires b in Remove(s, a)
  {
    var u := Remove(s, a);
    var k := IndexOf(u, b);
    u[..k + 1] + [a] + u[k + 1..]
  }

  /** cfq_merged_requests for two requests of one queue: `nx` is absorbed by `rq`. */
  function MergedRequests(t: Tunables, x: Index, rq: Request, nx: Request): Index
    requires rq in x.sort && nx in x.sort && rq != nx && Listed(x)
  {
    RemoveMembers(x.fifo, rq);
    var y := if x.fifoTime[nx.id] < x.fifoTime[rq.id]
             then x.(fifo := MoveBehind(x.fifo, rq, nx), fifoTime := x.fifoTime[rq.id := x.fifoTime[nx.id]])
             else x;
    var z := if y.next == Some(nx) then y.(next := Some(rq)) else y;
    RemoveRequest(t, z, nx)
  }

  function Renamed(s: seq<Request>, r: Request, r': Request): seq<Request> {
    seq(|s|, i requires 0 <= i < |s| => if s[i] == r then r' else s[i])
  }

  /** cfq_reposition_rq_rb after a front merge moved the start of `r` to `r'`. */
  function Reposition(t: Tunables, x: Index, r: Request, r': Request, last: nat): Index
    requires r in x.sort
  {
    var y := DelRqRb(x, r);
    var z := y.(fifo := Renamed(y.fifo, r, r'), next := if y.next == Some(r) then Some(r') else y.next);
    AddRqRb(t, z, r', last)
  }

  lemma DistinctNoDup(s: seq<Request>)
    requires DistinctIds(s)
    ensures NoDup(s)
  {
  }

  ghost predicate SortOk(s: seq<Request>) {
    Sorted(PosOf, s) && DistinctIds(s)
  }

  lemma SortInsert(s: seq<Request>, r: Request)
    requires SortOk(s) && !HasId(s, r.id)
    ensures var u := Insert(PosOf, s, r);
            && SortOk(u)
            && multiset(u) == multiset(s) + multiset{r}
            && |u| == |s| + 1
            && (forall z :: z in u <==> z == r || z in s)
    ensures forall sync :: CountSync(Insert(PosOf, s, r), sync) ==
                           CountSync(s, sync) + if r.sync == sync then 1 else 0
  {
    InsertSorted(PosOf, s, r);
    InsertMembers(PosOf, s, r);
    forall sync {
      CountSyncInsert(s, Rank(PosOf, s, PosOf(r)), r, sync);
    }
  }

  lemma SortRemove(s: seq<Request>, r: Request)
    requires SortOk(s) && r in s
    ensures SortOk(Remove(s, r)) && !HasId(Remove(s, r), r.id)
    ensures multiset(Remove(s, r)) == multiset(s) - multiset{r}
    ensures |Remove(s, r)| == |s| - 1
    ensures forall z :: z in Remove(s, r) <==> z in s && z != r
    ensures forall sync :: CountSync(Remove(s, r), sync) ==
                           CountSync(s, sync) - if r.sync == sync then 1 else 0
  {
    DistinctNoDup(s);
    RemoveMembers(s, r);
    RemoveMultiset(s, r);
    RemoveSorted(PosOf, s, r);
    forall sync {
      CountSyncRemove(s, r, sync);
    }
    RemoveDistinct(s, r);
  }

  lemma {:induction false} RemoveDistinct(s: seq<Request>, r: Request)
    requires DistinctIds(s) && r in s
    ensures DistinctIds(Remove(s, r)) && !HasId(Remove(s, r), r.id)
  {
    if s[0] != r {
      assert forall j, k :: 0 <= j < k < |s| - 1 ==> s[1..][j].id != s[1..][k].id;
      RemoveDistinct(s[1..], r);
      DistinctNoDup(s[1..]);
      RemoveMembers(s[1..], r);
      var u := Remove(s[1..], r);
      forall k | 0 <= k < |u|
        ensures u[k].id != s[0].id
      {
        assert u[k] in s[1..];
      }
    }
  }

  /** Insertion: one more member everywhere, and the invariant kept. */
  lemma InsertKeepsInv(t: Tunables, x: Index, r: Request, expires: nat, last: nat)
    requires Inv(x) && !HasId(x.sort, r.id)
    ensures var y := InsertRequest(t, x, r, expires, last);
            && Inv(y)
            && multiset(y.sort) == multiset(x.sort) + multiset{r}
            && |y.sort| == |x.sort| + 1
            && y.fifo == x.fifo + [r]
            && y.queuedAsync + y.queuedSync == |y.sort|
            && (x.next.Some? ==> AsGood(t, y.next.value, x.next.value, last))
            && AsGood(t, y.next.value, r, last)
  {
    var y := InsertRequest(t, x, r, expires, last);
    assert r !in x.sort;
    InsertedMembers(x.fifo, |x.fifo|, r);
    assert x.fifo[..|x.fifo|] + [r] + x.fifo[|x.fifo|..] == y.fifo;
    SortInsert(x.sort, r);
    assert Listed(y);
    CountSyncTotal(y.sort);
    NextAfterInsert(t, x.next, r, last);
  }

  lemma NextAfterInsert(t: Tunables, next: Option<Request>, r: Request, last: nat)
    ensures var n := ChooseReq(t, next, Some(r), last);
            n.Some? && AsGood(t, n.value, r, last) && (next.Some? ==> AsGood(t, n.value, next.value, last))
  {
    AsGoodTotalPreorder(t, r, r, r, last);
    if next.Some? {
      ChooseReqIsBest(t, next.value, r, last);
      AsGoodTotalPreorder(t, next.value, r, r, last);
    }
  }

  lemma InsertNonEmpty(t: Tunables, x: Index, r: Request, expires: nat, last: nat)
    ensures InsertRequest(t, x, r, expires, last).sort != []
  {
  }

  /** Removal, however next_rq was set before, as long as the search result is used. */
  lemma RemoveKeepsListed(t: Tunables, x: Index, r: Request)
    requires Listed(x) && r in x.sort
    ensures var y := RemoveRequest(t, x, r);
            && Listed(y)
            && multiset(y.sort) == multiset(x.sort) - multiset{r}
            && |y.sort| == |x.sort| - 1
            && y.fifo == Remove(x.fifo, r)
            && y.queuedAsync + y.queuedSync == |y.sort|
            && (forall z :: z in y.sort <==> z in x.sort && z != r)
    ensures Queued(x, r.sync) > 0
  {
    hide FindNext, IndexOf, Remove, CountSync;
    SortRemove(x.sort, r);
    RemoveMembers(x.fifo, r);
    CountSyncTotal(Remove(x.sort, r));
    StillQueued(x, r);
  }

  /** The counter of pending requests in r's class is never found zero. */
  lemma StillQueued(x: Index, r: Request)
    requires Listed(x) && r in x.sort
    ensures Queued(x, r.sync) > 0
  {
    CountSyncRemove(x.sort, r, r.sync);
  }

  lemma FindNextStays(t: Tunables, x: Index, r: Request)
    requires Listed(x) && r in x.sort
    ensures var n := FindNext(t, x.sort, IndexOf(x.sort, r));
            && (n.None? <==> |x.sort| == 1)
            && (n.Some? ==> n.value in x.sort && n.value != r)
  {
    var i := IndexOf(x.sort, r);
    FindNextMember(t, x.sort, i);
    DistinctNoDup(x.sort);
  }

  /** Removal from a queue whose next request is set. */
  lemma RemoveKeepsInv(t: Tunables, x: Index, r: Request)
    requires Inv(x) && r in x.sort
    ensures Queued(x, r.sync) > 0
    ensures var y := RemoveRequest(t, x, r);
            && Inv(y)
            && multiset(y.sort) == multiset(x.sort) - multiset{r}
            && y.fifo == Remove(x.fifo, r)
            && y.queuedAsync + y.queuedSync == |y.sort| == |x.sort| - 1
  {
    RemoveKeepsListed(t, x, r);
    FindNextStays(t, x, r);
    if x.next != Some(r) {
      assert x.next.value in RemoveRequest(t, x, r).sort;
    }
  }

  /** Dispatch, by next_rq or by the FIFO head alike. */
  lemma DispatchKeepsInv(t: Tunables, x: Index, r: Request)
    requires Inv(x) && r in x.sort
    ensures var y := DispatchRemove(t, x, r);
            && Inv(y)
            && multiset(y.sort) == multiset(x.sort) - multiset{r}
            && |y.sort| == |x.sort| - 1
            && y.fifo == Remove(x.fifo, r)
            && (forall z :: z in y.sort <==> z in x.sort && z != r)
  {
    FindNextStays(t, x, r);
    RemoveKeepsListed(t, x.(next := FindNext(t, x.sort, IndexOf(x.sort, r))), r);
  }

  lemma MoveBehindMembers(s: seq<Request>, a: Request, b: Request)
    requires NoDup(s) && a in s && b in s && a != b
    ensures b in Remove(s, a)
    ensures NoDup(MoveBehind(s, a, b)) && SameMembers(MoveBehind(s, a, b), s)
  {
    RemoveMembers(s, a);
    var u := Remove(s, a);
    var k := IndexOf(u, b);
    InsertedMembers(u, k + 1, a);
  }

  /** Moved right behind b, a takes b's place once b is gone. */
  lemma TakesPlace(s: seq<Request>, a: Request, b: Request)
    requires NoDup(s) && a in s && b in s && a != b
    ensures b in Remove(s, a)
    ensures Remove(MoveBehind(s, a, b), b) == Renamed(Remove(s, a), b, a)
  {
    RemoveMembers(s, a);
    var u := Remove(s, a);
    var k := IndexOf(u, b);
    MoveBehindMembers(s, a, b);
    hide Remove, IndexOf;
    RemoveFromPair(u, k, a);
    RenamedAt(u, k, a);
  }

  lemma RemoveFromPair(u: seq<Request>, k: nat, a: Request)
    requires k < |u| && NoDup(u[..k + 1] + [a] + u[k + 1..])
    ensures Remove(u[..k + 1] + [a] + u[k + 1..], u[k]) == u[k := a]
  {
    var v := u[..k + 1] + [a] + u[k + 1..];
    hide NoDup;
    RemoveAt(v, k);
    assert v[..k] == u[..k] && v[k + 1..] == [a] + u[k + 1..];
  }

  lemma RenamedAt(u: seq<Request>, k: nat, a: Request)
    requires k < |u| && NoDup(u)
    ensures Renamed(u, u[k], a) == u[k := a]
  {
  }

  /**
   * A same-queue merge drops exactly the absorbed request; the survivor keeps its FIFO place,
   * or takes that of the absorbed request if that one was to expire first.
   */
  lemma MergeKeepsInv(t: Tunables, x: Index, rq: Request, nx: Request)
    requires Inv(x) && rq in x.sort && nx in x.sort && rq != nx
    ensures var y := MergedRequests(t, x, rq, nx);
            && Inv(y)
            && rq in y.sort
            && multiset(y.sort) == multiset(x.sort) - multiset{nx}
            && |y.sort| == |x.sort| - 1
            && y.fifo == (if x.fifoTime[nx.id] < x.fifoTime[rq.id] then Renamed(Remove(x.fifo, rq), nx, rq)
                          else Remove(x.fifo, nx))
            && y.fifoTime[rq.id] <= x.fifoTime[rq.id] && y.fifoTime[rq.id] <= x.fifoTime[nx.id]
            && (x.next == Some(nx) ==> y.next == Some(rq))
            && (x.next != Some(nx) ==> y.next == x.next)
  {
    MoveBehindMembers(x.fifo, rq, nx);
    TakesPlace(x.fifo, rq, nx);
    var y := if x.fifoTime[nx.id] < x.fifoTime[rq.id]
             then x.(fifo := MoveBehind(x.fifo, rq, nx), fifoTime := x.fifoTime[rq.id := x.fifoTime[nx.id]])
             else x;
    var z := if y.next == Some(nx) then y.(next := Some(rq)) else y;
    assert Inv(z);
    RemoveKeepsListed(t, z, nx);
    RemoveKeepsInv(t, z, nx);
  }

  lemma RenamedMembers(s: seq<Request>, r: Request, r': Request)
    requires NoDup(s) && r in s && r'.id == r.id
    requires forall y, z :: y in s && z in s && y.id == z.id ==> y == z
    ensures NoDup(Renamed(s, r, r'))
    ensures forall z :: z in Renamed(s, r, r') <==> z == r' || (z in s && z != r)
  {
    var u := Renamed(s, r, r');
    var k :| 0 <= k < |s| && s[k] == r;
    assert u[k] == r';
    forall z | z in s && z != r
      ensures z in u
    {
      var j :| 0 <= j < |s| && s[j] == z;
      assert u[j] == z;
    }
    forall i, j | 0 <= i < j < |u|
      ensures u[i] != u[j]
    {
      assert s[i] in s && s[j] in s;
    }
  }

  /** Repositioning swaps the old request value for the new one and nothing else. */
  lemma RepositionKeepsInv(t: Tunables, x: Index, r: Request, r': Request, last: nat)
    requires Inv(x) && r in x.sort && r'.id == r.id && r'.sync == r.sync
    ensures var y := Reposition(t, x, r, r', last);
            && Inv(y)
            && multiset(y.sort) == multiset(x.sort) - multiset{r} + multiset{r'}
            && |y.sort| == |x.sort| && |y.fifo| == |x.fifo|
            && (forall i :: 0 <= i < |x.fifo| ==> y.fifo[i] == if x.fifo[i] == r then r' else x.fifo[i])
  {
    var d := DelRqRb(x, r);
    assert forall y, z :: y in x.fifo && z in x.fifo && y.id == z.id ==> y == z;
    RenamedMembers(x.fifo, r, r');
    SortRemove(x.sort, r);
    SortInsert(d.sort, r');
  }
}
