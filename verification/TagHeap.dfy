/**
 * The binary heap of tagged requests that the start-time fair queueing drivers share:
 * sift-up that moves a hole, sift-down that swaps contents.
 */
module TagHeap {

  /** A request with the tags it was given; two requests are told apart by rq. */
  datatype SfqRequest = SfqRequest(rq: nat, startTag: int, finishTag: int)

  function Parent(i: nat): (p: nat)
    requires i > 0
    ensures p < i
  {
    (i - 1) / 2
  }

  ghost predicate HeapOrdered(h: seq<SfqRequest>) {
    forall j :: 0 < j < |h| ==> h[Parent(j)].startTag <= h[j].startTag
  }

  lemma {:induction false} RootIsMinimum(h: seq<SfqRequest>, i: nat)
    requires HeapOrdered(h) && i < |h|
    ensures h[0].startTag <= h[i].startTag
  {
    if i > 0 {
      RootIsMinimum(h, Parent(i));
    }
  }

  // ---------- sift-up ----------

  /** Move the hole at i towards the root until x fits into it. */
  function SiftUp(h: seq<SfqRequest>, i: nat, x: SfqRequest): (r: seq<SfqRequest>)
    requires i < |h|
    ensures |r| == |h|
    decreases i
  {
    if i > 0 && x.startTag < h[Parent(i)].startTag then SiftUp(h[i := h[Parent(i)]], Parent(i), x) else h[i := x]
  }

  function Insert(h: seq<SfqRequest>, x: SfqRequest): (r: seq<SfqRequest>)
    ensures |r| == |h| + 1
  {
    SiftUp(h + [x], |h|, x)
  }

  /** Heap order around a hole at i that will take x. */
  ghost predicate AroundHole(h: seq<SfqRequest>, i: nat, x: SfqRequest) {
    && i < |h|
    && (forall j :: 0 < j < |h| && j != i && Parent(j) != i ==> h[Parent(j)].startTag <= h[j].startTag)
    && (forall j :: 0 < j < |h| && Parent(j) == i ==> x.startTag <= h[j].startTag)
    && (forall j :: 0 < j < |h| && Parent(j) == i && i > 0 ==> h[Parent(i)].startTag <= h[j].startTag)
  }

  lemma {:induction false} SiftUpOrders(h: seq<SfqRequest>, i: nat, x: SfqRequest)
    requires AroundHole(h, i, x)
    ensures HeapOrdered(SiftUp(h, i, x))
    ensures multiset(SiftUp(h, i, x)) == multiset(h[i := x])
    decreases i
  {
    hide Parent;
    if i > 0 && x.startTag < h[Parent(i)].startTag {
      var p := Parent(i);
      var h' := h[i := h[p]];
      HoleMoves(h, i, x);
      assert multiset(h'[p := x]) == multiset(h[i := x]) by {
        assert h'[p := x] == h[i := x][i := h[p]][p := x];
      }
      hide AroundHole;
      SiftUpOrders(h', p, x);
    }
  }

  lemma HoleMoves(h: seq<SfqRequest>, i: nat, x: SfqRequest)
    requires AroundHole(h, i, x) && i > 0 && x.startTag < h[Parent(i)].startTag
    ensures AroundHole(h[i := h[Parent(i)]], Parent(i), x)
  {
    hide Parent;
    var p := Parent(i);
    assert p > 0 ==> h[Parent(p)].startTag <= h[p].startTag;
  }

  lemma InsertOrders(h: seq<SfqRequest>, x: SfqRequest)
    requires HeapOrdered(h)
    ensures HeapOrdered(Insert(h, x))
    ensures multiset(Insert(h, x)) == multiset(h) + multiset{x}
  {
    assert (h + [x])[|h| := x] == h + [x];
    SiftUpOrders(h + [x], |h|, x);
  }

  // ---------- sift-down ----------

  /** The position of the smallest of i and its children, the node itself winning ties. */
  function Smallest(h: seq<SfqRequest>, i: nat): (s: nat)
    requires i < |h|
    ensures s < |h| && (s == i || (s > i && Parent(s) == i && h[s].startTag < h[i].startTag))
    ensures forall j :: 0 < j < |h| && Parent(j) == i ==> h[s].startTag <= h[j].startTag
  {
    var l, r := 2 * i + 1, 2 * i + 2;
    var s := if l < |h| && h[l].startTag < h[i].startTag then l else i;
    if r < |h| && h[r].startTag < h[s].startTag then r else s
  }

  function SiftDown(h: seq<SfqRequest>, i: nat): (r: seq<SfqRequest>)
    requires i < |h|
    ensures |r| == |h|
    decreases |h| - i
  {
    var s := Smallest(h, i);
    if s != i then SiftDown(h[i := h[s]][s := h[i]], s) else h
  }

  /** Heap order except that node i may exceed its children. */
  ghost predicate ExceptAt(h: seq<SfqRequest>, i: nat) {
    && i < |h|
    && (forall j :: 0 < j < |h| && Parent(j) != i ==> h[Parent(j)].startTag <= h[j].startTag)
    && (forall j :: 0 < j < |h| && Parent(j) == i && i > 0 ==> h[Parent(i)].startTag <= h[j].startTag)
  }

  lemma {:induction false} SiftDownOrders(h: seq<SfqRequest>, i: nat)
    requires ExceptAt(h, i)
    ensures HeapOrdered(SiftDown(h, i)) && multiset(SiftDown(h, i)) == multiset(h)
    decreases |h| - i
  {
    hide Parent, Smallest;
    var s := Smallest(h, i);
    if s != i {
      var h' := h[i := h[s]][s := h[i]];
      SinkMoves(h, i);
      hide ExceptAt, HeapOrdered;
      SiftDownOrders(h', s);
    }
  }

  lemma SinkMoves(h: seq<SfqRequest>, i: nat)
    requires ExceptAt(h, i) && Smallest(h, i) != i
    ensures var s := Smallest(h, i); ExceptAt(h[i := h[s]][s := h[i]], s)
  {
    hide Parent, Smallest;
    var s := Smallest(h, i);
    assert h[s].startTag < h[i].startTag;
  }

  /** What is left when the root has been taken. */
  function RemoveRoot(h: seq<SfqRequest>): (r: seq<SfqRequest>)
    requires h != []
    ensures |r| == |h| - 1
  {
    var n := |h| - 1;
    if n == 0 then [] else SiftDown([h[n]] + h[1..n], 0)
  }

  lemma RemoveRootOrders(h: seq<SfqRequest>)
    requires HeapOrdered(h) && h != []
    ensures HeapOrdered(RemoveRoot(h))
    ensures multiset(h) == multiset{h[0]} + multiset(RemoveRoot(h))
  {
    var n := |h| - 1;
    if n == 0 {
      assert h == [h[0]];
    } else {
      var t := [h[n]] + h[1..n];
      assert forall j :: 0 < j < |t| ==> t[j] == h[j];
      assert ExceptAt(t, 0);
      LastToFront(h);
      hide HeapOrdered, ExceptAt, SiftDown;
      SiftDownOrders(t, 0);
    }
  }

  lemma LastToFront(h: seq<SfqRequest>)
    requires |h| > 1
    ensures multiset(h) == multiset{h[0]} + multiset([h[|h| - 1]] + h[1..|h| - 1])
  {
    assert h == [h[0]] + h[1..|h| - 1] + [h[|h| - 1]];
  }

  /** The root is the smallest, so what is left is no smaller. */
  lemma RootFirst(h: seq<SfqRequest>)
    requires HeapOrdered(h) && h != []
    ensures forall x :: x in RemoveRoot(h) ==> x in h
    ensures forall x :: x in h ==> h[0].startTag <= x.startTag
  {
    RemoveRootOrders(h);
    forall x | x in RemoveRoot(h)
      ensures x in h
    {
      assert x in multiset(RemoveRoot(h));
      assert x in multiset(h);
    }
    forall x | x in h
      ensures h[0].startTag <= x.startTag
    {
      var i :| 0 <= i < |h| && h[i] == x;
      RootIsMinimum(h, i);
    }
  }

  // ---------- in the array ----------

  /** The loop of sfq_add_request. */
  method SiftUpInArray(a: array<SfqRequest>, n: nat, x: SfqRequest)
    requires n < a.Length
    modifies a
    ensures a[..n + 1] == Insert(old(a[..n]), x)
    ensures a[n + 1..] == old(a[n + 1..])
  {
    var i: nat := n;
    while i > 0 && x.startTag < a[Parent(i)].startTag
      invariant i <= n
      invariant SiftUp(a[..n + 1], i, x) == SiftUp(old(a[..n + 1]), n, x)
      invariant a[n + 1..] == old(a[n + 1..])
    {
      ghost var h := a[..n + 1];
      a[i] := a[Parent(i)];
      assert a[..n + 1] == h[i := h[Parent(i)]];
      i := Parent(i);
    }
    ghost var h := a[..n + 1];
    a[i] := x;
    assert a[..n + 1] == h[i := x];
    SameBelow(old(a[..n + 1]), old(a[..n]) + [x], n, x);
  }

  /** What stands in the hole does not matter. */
  lemma SameBelow(g: seq<SfqRequest>, h: seq<SfqRequest>, n: nat, x: SfqRequest)
    requires |g| == |h| == n + 1 && g[..n] == h[..n]
    ensures SiftUp(g, n, x) == SiftUp(h, n, x)
  {
    assert forall j :: 0 <= j < n ==> g[j] == g[..n][j] && h[j] == h[..n][j];
    if n > 0 {
      assert g[n := g[Parent(n)]] == h[n := h[Parent(n)]];
    }
    assert g[n := x] == h[n := x];
  }

  /** heap_swap: the contents trade places. */
  method HeapSwap(a: array<SfqRequest>, i: nat, j: nat)
    requires i < a.Length && j < a.Length
    modifies a
    ensures a[..] == old(a[..])[i := old(a[j])][j := old(a[i])]
  {
    var temp := a[i];
    a[i] := a[j];
    a[j] := temp;
  }

  /** heapify on the first n entries. */
  method Heapify(a: array<SfqRequest>, n: nat, i: nat)
    requires i < n <= a.Length
    modifies a
    ensures a[..n] == SiftDown(old(a[..n]), i)
    ensures a[n..] == old(a[n..])
    decreases n - i
  {
    var l, r := 2 * i + 1, 2 * i + 2;
    var smallest := if l < n && a[l].startTag < a[i].startTag then l else i;
    if r < n && a[r].startTag < a[smallest].startTag {
      smallest := r;
    }
    assert smallest == Smallest(a[..n], i);
    if smallest != i {
      HeapSwap(a, i, smallest);
      assert a[..n] == old(a[..n])[i := old(a[..n])[smallest]][smallest := old(a[..n])[i]];
      assert a[n..] == old(a[n..]);
      Heapify(a, n, smallest);
    }
  }
}
