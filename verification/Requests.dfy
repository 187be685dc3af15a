/** A block request, with the fields the schedulers look at. */
module Requests {
  import opened Seqs
  import opened Ordered

  /**
   * id is the request's identity (its address); pos and sectors locate it on disk;
   * write is its data direction; prio is REQ_PRIO; stop is "REQ_SOFTBARRIER or
   * REQ_STARTED is set".
   */
  datatype Request = Request(id: nat, pos: nat, sectors: nat, op: nat, write: bool,
                             sync: bool, prio: bool, stop: bool)

  const PosOf: Request -> int := (r: Request) => r.pos

  /** No request is linked twice. */
  predicate DistinctIds(s: seq<Request>) {
    forall i, j :: 0 <= i < j < |s| ==> s[i].id != s[j].id
  }

  predicate HasId(s: seq<Request>, id: nat) {
    exists i :: 0 <= i < |s| && s[i].id == id
  }

  function CountSync(s: seq<Request>, sync: bool): nat {
    if s == [] then 0 else (if s[0].sync == sync then 1 else 0) + CountSync(s[1..], sync)
  }

  lemma {:induction false} CountSyncAppend(a: seq<Request>, b: seq<Request>, sync: bool)
    ensures CountSync(a + b, sync) == CountSync(a, sync) + CountSync(b, sync)
  {
    if a == [] {
      assert a + b == b;
    } else {
      assert (a + b)[1..] == a[1..] + b;
      CountSyncAppend(a[1..], b, sync);
    }
  }

  lemma CountSyncInsert(s: seq<Request>, k: nat, r: Request, sync: bool)
    requires k <= |s|
    ensures CountSync(s[..k] + [r] + s[k..], sync) ==
            CountSync(s, sync) + if r.sync == sync then 1 else 0
  {
    CountSyncAppend(s[..k] + [r], s[k..], sync);
    CountSyncAppend(s[..k], [r], sync);
    CountSyncAppend(s[..k], s[k..], sync);
    assert s[..k] + s[k..] == s;
    assert CountSync([r], sync) == if r.sync == sync then 1 else 0;
  }

  lemma {:induction false} CountSyncRemove(s: seq<Request>, r: Request, sync: bool)
    requires r in s
    ensures CountSync(Remove(s, r), sync) == CountSync(s, sync) - if r.sync == sync then 1 else 0
  {
    if s[0] != r {
      CountSyncRemove(s[1..], r, sync);
      assert ([s[0]] + Remove(s[1..], r))[1..] == Remove(s[1..], r);
    }
  }

  lemma {:induction false} CountSyncTotal(s: seq<Request>)
    ensures CountSync(s, false) + CountSync(s, true) == |s|
  {
    if s != [] {
      CountSyncTotal(s[1..]);
    }
  }
}
