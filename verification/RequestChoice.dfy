/**
 * Which of two pending requests the disk should serve next, relative to the head
 * position, and the neighbour-only search for the best of a whole queue.
 */
module RequestChoice {
  import opened Seqs
  import opened Ordered
  import opened Requests

  /** The two tunables: maximum backward seek in KiB, and its penalty factor. */
  datatype Tunables = Tunables(backMax: nat, backPenalty: nat)

  /** Behind the head by more than the allowed backward seek (2 sectors per KiB). */
  predicate Wraps(t: Tunables, r: Request, last: nat) {
    r.pos < last && r.pos + t.backMax * 2 < last
  }

  function Distance(t: Tunables, r: Request, last: nat): int {
    if r.pos >= last then r.pos - last
    else if r.pos + t.backMax * 2 >= last then (last - r.pos) * t.backPenalty
    else 0
  }

  function ChooseReq(t: Tunables, rq1: Option<Request>, rq2: Option<Request>, last: nat): (r: Option<Request>)
    ensures r == rq1 || r == rq2
    ensures r.None? <==> rq1.None? && rq2.None?
  {
    if rq1.None? || rq1 == rq2 then rq2
    else if rq2.None? then rq1
    else
      var a, b := rq1.value, rq2.value;
      if a.sync != b.sync then (if a.sync then rq1 else rq2)
      else if a.prio != b.prio then (if a.prio then rq1 else rq2)
      else
        var d1, d2 := Distance(t, a, last), Distance(t, b, last);
        match (Wraps(t, a, last), Wraps(t, b, last))
        case (false, false) =>
          if d1 < d2 then rq1
          else if d2 < d1 then rq2
          else if a.pos >= b.pos then rq1 else rq2
        case (false, true) => rq1
        case (true, false) => rq2
        case (true, true) => if a.pos <= b.pos then rq1 else rq2
  }

  /** The service order ChooseReq is meant to follow, most urgent criterion first. */
  ghost predicate Better(t: Tunables, a: Request, b: Request, last: nat) {
    if a.sync != b.sync then a.sync
    else if a.prio != b.prio then a.prio
    else if Wraps(t, a, last) != Wraps(t, b, last) then Wraps(t, b, last)
    else if Wraps(t, a, last) then a.pos < b.pos
    else if Distance(t, a, last) != Distance(t, b, last) then Distance(t, a, last) < Distance(t, b, last)
    else a.pos > b.pos
  }

  ghost predicate AsGood(t: Tunables, a: Request, b: Request, last: nat) {
    !Better(t, b, a, last)
  }

  /** AsGood is a total preorder whose ties are requests at one position. */
  lemma AsGoodTotalPreorder(t: Tunables, a: Request, b: Request, c: Request, last: nat)
    ensures AsGood(t, a, b, last) || AsGood(t, b, a, last)
    ensures AsGood(t, a, b, last) && AsGood(t, b, c, last) ==> AsGood(t, a, c, last)
    ensures AsGood(t, a, b, last) && AsGood(t, b, a, last) <==>
            a.sync == b.sync && a.prio == b.prio && a.pos == b.pos
  {
  }

  /** ChooseReq returns the better request, and the first one on a tie. */
  lemma ChooseReqIsBest(t: Tunables, a: Request, b: Request, last: nat)
    ensures ChooseReq(t, Some(a), Some(b), last) ==
            Some(if AsGood(t, a, b, last) then a else b)
  {
  }

  /** Reference: a linear scan of all candidates. */
  function Scan(t: Tunables, s: seq<Request>, last: nat): Option<Request> {
    if s == [] then None
    else ChooseReq(t, Scan(t, s[..|s| - 1], last), Some(s[|s| - 1]), last)
  }

  ghost predicate Best(t: Tunables, r: Request, s: seq<Request>, last: nat) {
    forall x :: x in s ==> AsGood(t, r, x, last)
  }

  lemma {:induction false} ScanIsBest(t: Tunables, s: seq<Request>, last: nat)
    ensures Scan(t, s, last).None? <==> s == []
    ensures s != [] ==> Scan(t, s, last).value in s && Best(t, Scan(t, s, last).value, s, last)
  {
    if s != [] {
      var h, x := s[..|s| - 1], s[|s| - 1];
      ScanIsBest(t, h, last);
      assert s == h + [x];
      if h != [] {
        var m := Scan(t, h, last).value;
        ChooseReqIsBest(t, m, x, last);
        AsGoodTotalPreorder(t, m, x, x, last);
        forall y | y in h
          ensures AsGood(t, Scan(t, s, last).value, y, last)
        {
          AsGoodTotalPreorder(t, x, m, y, last);
        }
      }
    }
  }

  /** Folding the candidates in any order gives an equally good request. */
  lemma ScanOrderIndependent(t: Tunables, s: seq<Request>, s': seq<Request>, last: nat)
    requires multiset(s) == multiset(s') && s != []
    ensures Scan(t, s', last).Some?
    ensures var a, b := Scan(t, s, last).value, Scan(t, s', last).value;
            a.sync == b.sync && a.prio == b.prio && a.pos == b.pos
  {
    ScanIsBest(t, s, last);
    ScanIsBest(t, s', last);
    assert |s'| == |multiset(s')| == |multiset(s)| == |s|;
    assert forall x :: x in s <==> x in multiset(s);
    assert forall x :: x in s' <==> x in multiset(s');
    var a, b := Scan(t, s, last).value, Scan(t, s', last).value;
    AsGoodTotalPreorder(t, a, b, b, last);
  }

  /**
   * cfq_find_next_rq: look only at the two neighbours of `sort[i]` in sector order,
   * wrapping to the first request when there is no successor.
   */
  function FindNext(t: Tunables, sort: seq<Request>, i: nat): Option<Request>
    requires i < |sort|
  {
    var prev := if i > 0 then Some(sort[i - 1]) else None;
    var next := if i + 1 < |sort| then Some(sort[i + 1]) else if i > 0 then Some(sort[0]) else None;
    ChooseReq(t, next, prev, sort[i].pos)
  }

  /** All requests but the i-th. */
  function Others(sort: seq<Request>, i: nat): seq<Request>
    requires i < |sort|
  {
    sort[..i] + sort[i + 1..]
  }

  lemma FindNextMember(t: Tunables, sort: seq<Request>, i: nat)
    requires i < |sort|
    ensures FindNext(t, sort, i).None? <==> |sort| == 1
    ensures FindNext(t, sort, i).Some? ==> FindNext(t, sort, i).value in Others(sort, i)
  {
    var o := Others(sort, i);
    if i + 1 < |sort| {
      assert o[i] == sort[i + 1];
    }
    if i > 0 {
      assert o[i - 1] == sort[i - 1] && o[0] == sort[0];
    }
  }

  /** sync before async, and within that REQ_PRIO before the rest. */
  function FlagRank(r: Request): nat {
    (if r.sync then 2 else 0) + (if r.prio then 1 else 0)
  }

  /** x would be served before w by position alone. */
  ghost predicate Overtakes(t: Tunables, x: Request, w: Request, last: nat) {
    if Wraps(t, x, last) != Wraps(t, w, last) then Wraps(t, w, last)
    else if Wraps(t, x, last) then x.pos < w.pos
    else if Distance(t, x, last) != Distance(t, w, last) then Distance(t, x, last) < Distance(t, w, last)
    else x.pos > w.pos
  }

  lemma BetterIs(t: Tunables, x: Request, w: Request, last: nat)
    ensures AsGood(t, w, x, last) <==>
            FlagRank(x) < FlagRank(w) || (FlagRank(x) == FlagRank(w) && !Overtakes(t, x, w, last))
  {
  }

  /** Where the search looks ahead: the successor, or the first request if there is none. */
  function NextAt(sort: seq<Request>, i: nat): (n: nat)
    requires i < |sort| && |sort| > 1
    ensures n < |sort| && n != i
  {
    if i + 1 < |sort| then i + 1 else 0
  }

  /** Where the search finds its result. */
  ghost function FoundAt(t: Tunables, sort: seq<Request>, i: nat): (w: nat)
    requires i < |sort| && |sort| > 1
    ensures w < |sort| && w != i
  {
    if i == 0 || AsGood(t, sort[NextAt(sort, i)], sort[i - 1], sort[i].pos) then NextAt(sort, i) else i - 1
  }

  lemma FoundIs(t: Tunables, sort: seq<Request>, i: nat)
    requires i < |sort| && |sort| > 1
    ensures FindNext(t, sort, i) == Some(sort[FoundAt(t, sort, i)])
  {
    if i > 0 {
      ChooseReqIsBest(t, sort[NextAt(sort, i)], sort[i - 1], sort[i].pos);
    }
  }

  /** The two requests looked at have the same flags, or there is only one. */
  predicate AlikeNeighbours(sort: seq<Request>, i: nat)
    requires i < |sort| && |sort| > 1
  {
    i == 0 || FlagRank(sort[NextAt(sort, i)]) == FlagRank(sort[i - 1])
  }

  /** The neighbour with the higher flags, the one behind on a tie. */
  function LeaderAt(sort: seq<Request>, i: nat): (w: nat)
    requires i < |sort| && |sort| > 1
    ensures w < |sort| && w != i
  {
    if i == 0 || FlagRank(sort[NextAt(sort, i)]) > FlagRank(sort[i - 1]) then NextAt(sort, i) else i - 1
  }

  /** Flags decide between neighbours that are not alike, and those that are have the same ones. */
  lemma FlagsDecide(t: Tunables, sort: seq<Request>, i: nat)
    requires i < |sort| && |sort| > 1
    ensures FlagRank(sort[FoundAt(t, sort, i)]) == FlagRank(sort[LeaderAt(sort, i)])
    ensures !AlikeNeighbours(sort, i) ==> FoundAt(t, sort, i) == LeaderAt(sort, i)
  {
  }

  /** Nobody has higher flags than both neighbours. */
  predicate NoHigherFlags(sort: seq<Request>, i: nat)
    requires i < |sort| && |sort| > 1
  {
    forall j :: 0 <= j < |sort| && j != i ==> FlagRank(sort[j]) <= FlagRank(sort[LeaderAt(sort, i)])
  }

  /** Places that the sector order alone does not put behind the leading neighbour. */
  ghost predicate Unseen(t: Tunables, sort: seq<Request>, i: nat, j: nat)
    requires i < |sort| && |sort| > 1
  {
    var w := LeaderAt(sort, i);
    if w > i then j < i
    else if w == i - 1 && !Wraps(t, sort[w], sort[i].pos) then j > i
    else true
  }

  /** No request with the leading neighbour's flags is nearer at such a place. */
  ghost predicate NobodyOvertakes(t: Tunables, sort: seq<Request>, i: nat)
    requires i < |sort| && |sort| > 1
  {
    var w := LeaderAt(sort, i);
    forall j :: 0 <= j < |sort| && j != i && Unseen(t, sort, i, j) && FlagRank(sort[j]) == FlagRank(sort[w]) ==>
      !Overtakes(t, sort[j], sort[w], sort[i].pos)
  }

  /**
   * The neighbours and the wrapped first request contain a best request of the whole
   * queue, the one a linear scan finds, exactly when no other request has higher flags
   * than both and, if the neighbours' flags differ, none with the flags of the leading one
   * is nearer at a place that one does not cover.
   */
  lemma FindNextIsBest(t: Tunables, sort: seq<Request>, i: nat)
    requires i < |sort| && |sort| > 1 && Sorted(PosOf, sort)
    ensures FindNext(t, sort, i).Some? && Scan(t, Others(sort, i), sort[i].pos).Some?
    ensures Best(t, FindNext(t, sort, i).value, Others(sort, i), sort[i].pos) <==>
            NoHigherFlags(sort, i) && (AlikeNeighbours(sort, i) || NobodyOvertakes(t, sort, i))
    ensures Best(t, FindNext(t, sort, i).value, Others(sort, i), sort[i].pos) <==>
            var r, best := FindNext(t, sort, i).value, Scan(t, Others(sort, i), sort[i].pos).value;
            r.sync == best.sync && r.prio == best.prio && r.pos == best.pos
  {
    var last, o, w := sort[i].pos, Others(sort, i), FoundAt(t, sort, i);
    FoundIs(t, sort, i);
    FlagsDecide(t, sort, i);
    FindNextMember(t, sort, i);
    assert InOrder: forall j, k :: 0 <= j < k < |sort| ==> sort[j].pos <= sort[k].pos by {
      assert forall j :: 0 <= j < |sort| ==> PosOf(sort[j]) == sort[j].pos;
    }
    BestByPlace(t, sort, i, sort[w]);
    forall j | 0 <= j < |sort| && j != i
      ensures AsGood(t, sort[w], sort[j], last) <==>
              FlagRank(sort[j]) < FlagRank(sort[w]) ||
              (FlagRank(sort[j]) == FlagRank(sort[w])
               && (AlikeNeighbours(sort, i) || !Unseen(t, sort, i, j) || !Overtakes(t, sort[j], sort[w], last)))
    {
      BetterIs(t, sort[j], sort[w], last);
      if FlagRank(sort[j]) == FlagRank(sort[w]) && (AlikeNeighbours(sort, i) || !Unseen(t, sort, i, j)) {
        NeighbourBeats(t, sort, i, j);
      }
    }
    BestIsScanned(t, sort[w], o, last);
  }

  lemma BestByPlace(t: Tunables, sort: seq<Request>, i: nat, r: Request)
    requires i < |sort|
    ensures Best(t, r, Others(sort, i), sort[i].pos) <==>
            forall j :: 0 <= j < |sort| && j != i ==> AsGood(t, r, sort[j], sort[i].pos)
  {
    var o := Others(sort, i);
    forall j | 0 <= j < |sort| && j != i
      ensures sort[j] in o
    {
      assert o[if j < i then j else j - 1] == sort[j];
    }
    forall x | x in o
      ensures exists j :: 0 <= j < |sort| && j != i && sort[j] == x
    {
      var m :| 0 <= m < |o| && o[m] == x;
      assert sort[if m < i then m else m + 1] == x;
    }
  }

  lemma BestIsScanned(t: Tunables, r: Request, s: seq<Request>, last: nat)
    requires r in s
    ensures Scan(t, s, last).Some?
    ensures var best := Scan(t, s, last).value;
            Best(t, r, s, last) <==> r.sync == best.sync && r.prio == best.prio && r.pos == best.pos
  {
    ScanIsBest(t, s, last);
    var best := Scan(t, s, last).value;
    AsGoodTotalPreorder(t, r, best, best, last);
    forall x | x in s
      ensures AsGood(t, r, best, last) ==> AsGood(t, r, x, last)
    {
      AsGoodTotalPreorder(t, r, best, x, last);
    }
  }

  /** A request with the result's flags at a place the search covers does not beat it. */
  lemma NeighbourBeats(t: Tunables, sort: seq<Request>, i: nat, j: nat)
    requires i < |sort| && |sort| > 1 && j < |sort| && i != j
    requires forall j, k :: 0 <= j < k < |sort| ==> sort[j].pos <= sort[k].pos
    requires FlagRank(sort[j]) == FlagRank(sort[FoundAt(t, sort, i)])
    requires AlikeNeighbours(sort, i) || !Unseen(t, sort, i, j)
    ensures AsGood(t, sort[FoundAt(t, sort, i)], sort[j], sort[i].pos)
  {
    FlagsDecide(t, sort, i);
    var last, x, n := sort[i].pos, sort[j], sort[NextAt(sort, i)];
    if j > i {
      assert FlagRank(n) == FlagRank(x) ==> AsGood(t, n, x, last);
    } else {
      var p := sort[i - 1];
      if FlagRank(p) == FlagRank(x) {
        BackwardOrder(t, p, x, last);
      }
    }
    if i > 0 {
      AsGoodTotalPreorder(t, sort[i - 1], n, x, last);
      AsGoodTotalPreorder(t, n, sort[i - 1], x, last);
    }
  }

  /** Behind the head, and within reach, the larger sector is the better one. */
  lemma BackwardOrder(t: Tunables, p: Request, x: Request, last: nat)
    requires x.pos <= p.pos <= last && FlagRank(x) == FlagRank(p)
    ensures (Wraps(t, x, last) && Wraps(t, p, last)) || AsGood(t, p, x, last)
  {
    if !Wraps(t, x, last) && x.pos < last && p.pos < last {
      assert (last - p.pos) * t.backPenalty <= (last - x.pos) * t.backPenalty;
    }
  }

  /** Three requests at sectors 0, 8 and 16, the last one with REQ_PRIO. */
  function PrioBehindNeighbour(): seq<Request> {
    var r := Request(0, 0, 8, 0, false, true, false, false);
    [r, r.(id := 1, pos := 8), r.(id := 2, pos := 16, prio := true)]
  }

  /** From the first of them the search stops at the neighbour and misses the PRIO request. */
  lemma FindNextMissesPrio()
    ensures var t, sort := Tunables(16384, 2), PrioBehindNeighbour();
            && Sorted(PosOf, sort) && DistinctIds(sort) && sort[1].sync == sort[2].sync && !sort[1].prio && sort[2].prio
            && FindNext(t, sort, 0) == Some(sort[1])
            && Scan(t, Others(sort, 0), sort[0].pos) == Some(sort[2])
            && !Best(t, sort[1], Others(sort, 0), sort[0].pos)
  {
    var t, sort := Tunables(16384, 2), PrioBehindNeighbour();
    var o := Others(sort, 0);
    assert o == [sort[1], sort[2]];
    assert o[..1] == [sort[1]] && o[..1][..0] == [];
    assert Scan(t, [], 0) == None && Scan(t, o[..1], 0) == Some(sort[1]);
    assert !AsGood(t, o[0], o[1], 0);
  }
}
