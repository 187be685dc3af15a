/**
 * Whose turn it is: runs of the group tree as the scheduler makes them, in which a queue of
 * some group is activated, its group is charged, and a close cooperator may take over.
 */
module Turns {
  import opened Seqs
  import opened Ordered
  import opened Kernel
  import opened GroupTree

  /** No queue is active, one of a group is, or none since that group was charged. */
  datatype Turn = Free | Held(id: nat) | Left(id: nat)

  /**
   * A charge is of the group whose turn it is.  An activation is of the first group, or that
   * of a cooperator directly after its own group was charged.  A group with an active queue
   * does not leave.
   */
  ghost predicate Allowed(g: Tree, e: Event, turn: Turn) {
    match e
    case Serves(id, _) => turn == Held(id)
    case Activates(id, coop) => !turn.Held? && if coop then turn == Left(id) else IsFirst(g, id)
    case Leaves(id) => turn != Held(id)
    case Round(_) => !turn.Held?
    case _ => true
  }

  function TurnAfter(e: Event, turn: Turn): Turn {
    match e
    case Serves(id, _) => Left(id)
    case Activates(id, _) => Held(id)
    case _ => if turn.Held? then turn else Free
  }

  function TurnAt(es: seq<Event>, turn: Turn): Turn {
    if es == [] then turn else TurnAt(es[1..], TurnAfter(es[0], turn))
  }

  /** The run es of allowed events leads from g to h, and the turn from `turn` to `end`. */
  ghost predicate Leads(g: Tree, es: seq<Event>, h: Tree, turn: Turn, end: Turn)
    decreases |es|
  {
    if es == [] then h == g && (end == turn || (turn.Left? && end == Free))
    else Allowed(g, es[0], turn) && Leads(Step(g, es[0]), es[1..], h, TurnAfter(es[0], turn), end)
  }

  /** No group joins in the course of es, and no cooperator takes over unless `coop`. */
  predicate Plain(es: seq<Event>, coop: bool) {
    forall e :: e in es ==> !e.Joins? && (e.Activates? && e.coop ==> coop)
  }

  /** At most one join, at the start, and no cooperator. */
  predicate JoinThenPlain(es: seq<Event>) {
    es != [] ==> (es[0].Activates? ==> !es[0].coop) && Plain(es[1..], false)
  }

  lemma LeadsNowhere(g: Tree, turn: Turn)
    ensures Leads(g, [], g, turn, turn) && Plain([], false)
  {
  }

  lemma LeadsOn(g: Tree, e: Event, turn: Turn)
    requires Allowed(g, e, turn)
    ensures Leads(g, [e], Step(g, e), turn, TurnAfter(e, turn))
    ensures e.Serves? ==> Leads(g, [e], Step(g, e), turn, Free)
    ensures !e.Joins? ==> Plain([e], e.Activates? && e.coop)
  {
    assert [e][1..] == [];
  }

  /** What may follow a turn that is free may follow one just left. */
  lemma LeadsFromLeft(g: Tree, es: seq<Event>, h: Tree, id: nat, end: Turn)
    requires Leads(g, es, h, Free, end)
    ensures Leads(g, es, h, Left(id), end)
  {
  }

  lemma {:induction false} LeadsFurther(g: Tree, es: seq<Event>, h: Tree, fs: seq<Event>, k: Tree,
                                        a: Turn, b: Turn, c: Turn)
    requires Leads(g, es, h, a, b) && Leads(h, fs, k, b, c)
    ensures Leads(g, es + fs, k, a, c)
    decreases |es|
  {
    hide Allowed, Step, TurnAfter;
    if es == [] {
      assert es + fs == fs;
      if a != b {
        LeadsFromLeft(h, fs, k, a.id, c);
      }
    } else {
      assert (es + fs)[1..] == es[1..] + fs;
      LeadsFurther(Step(g, es[0]), es[1..], h, fs, k, TurnAfter(es[0], a), b, c);
    }
  }

  /** The events since `past` are es; they lead from g to h. */
  ghost predicate Moved(past: seq<Event>, g: Tree, turn: Turn, es: seq<Event>, now: seq<Event>, h: Tree, end: Turn) {
    now == past + es && Leads(g, es, h, turn, end)
  }

  lemma MovedNowhere(past: seq<Event>, g: Tree, turn: Turn)
    ensures Moved(past, g, turn, [], past, g, turn) && Plain([], false)
  {
  }

  lemma MovedFurther(past: seq<Event>, g: Tree, a: Turn, es: seq<Event>, mid: seq<Event>, h: Tree, b: Turn,
                     fs: seq<Event>, now: seq<Event>, k: Tree, c: Turn)
    requires Moved(past, g, a, es, mid, h, b) && Moved(mid, h, b, fs, now, k, c)
    ensures Moved(past, g, a, es + fs, now, k, c)
  {
    LeadsFurther(g, es, h, fs, k, a, b, c);
    assert past + es + fs == past + (es + fs);
  }

  /** The first group is looked up, and then a queue of it is activated. */
  lemma LeadsToFirst(g: Tree, turn: Turn)
    requires g.nodes != [] && !turn.Held?
    ensures var f := GetNext(g).nodes[0].id;
            && Leads(g, [Raises, Activates(f, false)], GetNext(g), turn, Held(f))
            && Plain([Raises, Activates(f, false)], false)
  {
    var f := GetNext(g).nodes[0].id;
    assert [Raises, Activates(f, false)][1..] == [Activates(f, false)];
    LeadsOn(GetNext(g), Activates(f, false), TurnAfter(Raises, turn));
  }

  /** A group is charged, and a cooperator of its own takes over. */
  lemma LeadsToCooperator(g: Tree, id: nat, scaled: nat)
    requires OnTree(g, id)
    ensures Leads(g, [Serves(id, scaled), Activates(id, true)], Charged(g, id, scaled), Held(id), Held(id))
    ensures Plain([Serves(id, scaled), Activates(id, true)], true)
  {
    assert [Serves(id, scaled), Activates(id, true)][1..] == [Activates(id, true)];
    LeadsOn(Charged(g, id, scaled), Activates(id, true), Left(id));
  }

  /** The join of a group that is not on the tree. */
  function JoinOf(g: Tree, id: nat): seq<Event> {
    if OnTree(g, id) then [] else [Joins(id)]
  }

  lemma LeadsToJoin(g: Tree, id: nat, turn: Turn)
    requires !turn.Left?
    ensures Leads(g, JoinOf(g, id), Step(g, Joins(id)), turn, turn)
  {
    if OnTree(g, id) {
      LeadsNowhere(g, turn);
    } else {
      LeadsOn(g, Joins(id), turn);
    }
  }

  /** Group id leaves, or nothing happens. */
  ghost predicate LeftOrNot(g: Tree, id: nat, events: seq<Event>, h: Tree) {
    (events == [] && h == g) || (events == [Leaves(id)] && OnTree(g, id) && h == Take(g, id))
  }

  lemma LeadsToLeave(g: Tree, id: nat, events: seq<Event>, h: Tree, turn: Turn)
    requires LeftOrNot(g, id, events, h) && (events != [] ==> turn != Held(id)) && !turn.Left?
    ensures Leads(g, events, h, turn, turn) && Plain(events, false)
  {
    if events == [] {
      LeadsNowhere(g, turn);
    } else {
      LeadsOn(g, Leaves(id), turn);
    }
  }

  lemma LeadsToSlice(g: Tree, id: nat, scaled: nat, events: seq<Event>, h: Tree)
    requires OnTree(g, id) && LeftOrNot(Charged(g, id, scaled), id, events, h)
    ensures Leads(g, [Serves(id, scaled)] + events, h, Held(id), Free) && Plain([Serves(id, scaled)] + events, false)
  {
    var c := Charged(g, id, scaled);
    LeadsOn(g, Serves(id, scaled), Held(id));
    LeadsToLeave(c, id, events, h, Free);
    LeadsFurther(g, [Serves(id, scaled)], c, events, h, Held(id), Free, Free);
  }

  lemma PlainFurther(es: seq<Event>, fs: seq<Event>, c: bool)
    requires Plain(es, false) && Plain(fs, c)
    ensures Plain(es + fs, c)
  {
  }

  lemma PlainThenPlain(es: seq<Event>, fs: seq<Event>, c: bool)
    requires Plain(es, c) && Plain(fs, false)
    ensures Plain(es + fs, c)
  {
  }

  lemma PlainTail(es: seq<Event>, c: bool)
    requires Plain(es, c) || JoinThenPlain(es)
    ensures es != [] ==> Plain(es[1..], c)
    ensures forall x :: Activates(x, true) in es ==> c
  {
    if JoinThenPlain(es) && es != [] {
      assert forall e :: e in es ==> e == es[0] || e in es[1..];
    }
  }

  lemma PlainOnly(es: seq<Event>, c: bool)
    requires Plain(es, false)
    ensures Plain(es, c)
  {
  }

  lemma JoinThenFurther(es: seq<Event>, fs: seq<Event>)
    requires |es| <= 1 && (es != [] ==> es[0].Joins?) && Plain(fs, false)
    ensures JoinThenPlain(es + fs)
  {
    if es == [] {
      assert es + fs == fs;
      assert fs != [] ==> fs[0] in fs && forall e :: e in fs[1..] ==> e in fs;
    } else {
      assert (es + fs)[1..] == fs;
    }
  }

  lemma {:induction false} LeadsIsRun(g: Tree, es: seq<Event>, h: Tree, turn: Turn, end: Turn)
    requires Leads(g, es, h, turn, end)
    ensures h == Run(g, es)
    decreases |es|
  {
    if es != [] {
      LeadsIsRun(Step(g, es[0]), es[1..], h, TurnAfter(es[0], turn), end);
    }
  }

  /** A group that leaves after the joins of a run is not on the tree at its end. */
  lemma {:induction false} LeavesForGood(g: Tree, es: seq<Event>, coop: bool, id: nat)
    requires TreeInv(g) && (es != [] ==> Plain(es[1..], coop))
    requires Leaves(id) in es || (Plain(es, coop) && !OnTree(g, id))
    ensures !OnTree(Run(g, es), id)
    decreases |es|
  {
    if es != [] {
      StepKeepsInv(g, es[0]);
      OffTree(g, es[0], id);
      if |es| > 1 {
        assert forall e :: e in es[2..] ==> e in es[1..];
      }
      LeavesForGood(Step(g, es[0]), es[1..], coop, id);
    }
  }

  lemma OffTree(g: Tree, e: Event, id: nat)
    requires TreeInv(g)
    ensures e == Leaves(id) || (!e.Joins? && !OnTree(g, id)) ==> !OnTree(Step(g, e), id)
  {
    match e {
      case Round(c) => if g.nodes != [] { RoundMembers(g, c); }
      case Leaves(h) => if OnTree(g, h) { TakeKeepsInv(g, h); }
      case Serves(h, c) => if OnTree(g, h) { ChargedKeepsInv(g, h, c); }
      case Raises => GetNextKeepsInv(g);
      case Activates(_, _) =>
      case Joins(h) =>
    }
  }

  // ---------- who is charged ----------

  /** Whichever group is charged is the first one at that time. */
  ghost predicate MinFirst(g: Tree, es: seq<Event>)
    decreases |es|
  {
    es == [] || ((es[0].Serves? ==> IsFirst(g, es[0].id)) && MinFirst(Step(g, es[0]), es[1..]))
  }

  /** The charges of at least one fixed-point unit in a run, whichever group pays. */
  function Charges(es: seq<Event>): nat {
    if es == [] then 0
    else (if (es[0].Round? || es[0].Serves?) && es[0].scaled >= ONE then 1 else 0) + Charges(es[1..])
  }

  /** Then every charge counts towards the wait of every group. */
  lemma {:induction false} MinFirstPays(g: Tree, es: seq<Event>)
    requires MinFirst(g, es)
    ensures Paid(g, es) == Charges(es)
    decreases |es|
  {
    if es != [] {
      MinFirstPays(Step(g, es[0]), es[1..]);
    }
  }

  /** A join goes behind the first group, and a leave of another one or a lookup does not move it. */
  lemma FirstStays(g: Tree, e: Event, a: nat)
    requires TreeInv(g) && IsFirst(g, a) && (e.Joins? || e.Leaves? || e.Raises?) && e != Leaves(a)
    ensures IsFirst(Step(g, e), a)
  {
    StepKeepsInv(g, e);
    if e.Joins? && !OnTree(g, e.id) {
      InsertFirst(VOf, g.nodes, GNode(JoinTime(g), e.id));
      assert |g.nodes| > 1 ==> VOf(g.nodes[0]) <= VOf(g.nodes[|g.nodes| - 1]);
    }
    if e.Leaves? && OnTree(g, e.id) {
      TakeKeepsInv(g, e.id);
      assert NodeOf(g.nodes, e.id) != g.nodes[0];
    }
  }

  /** The first group has a lead of more than c over the second, or is the only one. */
  predicate Leading(g: Tree, c: nat) {
    g.nodes != [] && (|g.nodes| == 1 || g.nodes[0].v + c < g.nodes[1].v)
  }

  /** A group that is charged stays first exactly when its lead over the second one is larger. */
  lemma ChargedStaysFirst(g: Tree, c: nat)
    requires TreeInv(g) && g.nodes != []
    ensures OnTree(g, g.nodes[0].id)
    ensures IsFirst(Charged(g, g.nodes[0].id, c), g.nodes[0].id) <==> Leading(g, c)
  {
    var f := g.nodes[0];
    FirstCharged(g, c);
    SortedTail(g.nodes);
    if |g.nodes| > 1 {
      OneNodeEach(g, 1);
    }
    hide Charged, TreeInv, Rank, Insert;
    InsertFirst(VOf, g.nodes[1..], GNode(f.v + c, f.id));
    assert |Insert(VOf, g.nodes[1..], GNode(f.v + c, f.id))| > 0;
  }

  lemma FirstCharged(g: Tree, c: nat)
    requires TreeInv(g) && g.nodes != []
    ensures var f := g.nodes[0];
            && OnTree(g, f.id)
            && Charged(g, f.id, c).nodes == Insert(VOf, g.nodes[1..], GNode(f.v + c, f.id))
            && Charged(g, f.id, c).nodes != []
  {
    assert g.nodes[0] in g.nodes;
    NodeOfUnique(g.nodes, 0);
    assert Remove(g.nodes, g.nodes[0]) == g.nodes[1..];
    hide TreeInv, Rank;
  }

  /**
   * The k-th event charges a group whose active queue took over as a cooperator at the j-th,
   * directly after a charge of the same group that had put another one first.
   */
  ghost predicate Astray(g: Tree, es: seq<Event>, j: nat, k: nat) {
    && 0 < j < k < |es| && es[k].Serves?
    && es[j] == Activates(es[k].id, true) && es[j - 1].Serves? && es[j - 1].id == es[k].id
    && !IsFirst(Run(g, es[..j]), es[k].id)
  }

  lemma {:induction false} RunOneMore(g: Tree, es: seq<Event>, k: nat)
    requires k < |es|
    ensures Run(g, es[..k + 1]) == Step(Run(g, es[..k]), es[k])
    decreases k
  {
    if k > 0 {
      assert es[..k + 1][1..] == es[1..][..k] && es[..k][1..] == es[1..][..k - 1];
      RunOneMore(Step(g, es[0]), es[1..], k - 1);
    } else {
      assert es[..1] == [es[0]] && es[..1][1..] == [] && es[..0] == [];
    }
  }

  lemma {:induction false} TurnOneMore(es: seq<Event>, turn: Turn, k: nat)
    requires k < |es|
    ensures TurnAt(es[..k + 1], turn) == TurnAfter(es[k], TurnAt(es[..k], turn))
    decreases k
  {
    if k > 0 {
      assert es[..k + 1][1..] == es[1..][..k] && es[..k][1..] == es[1..][..k - 1];
      TurnOneMore(es[1..], TurnAfter(es[0], turn), k - 1);
    } else {
      assert es[..1] == [es[0]] && es[..1][1..] == [] && es[..0] == [];
    }
  }

  lemma {:induction false} AllowedAt(g: Tree, es: seq<Event>, h: Tree, turn: Turn, end: Turn, k: nat)
    requires Leads(g, es, h, turn, end) && k < |es|
    ensures Allowed(Run(g, es[..k]), es[k], TurnAt(es[..k], turn))
    decreases k
  {
    if k > 0 {
      assert es[..k][1..] == es[1..][..k - 1];
      AllowedAt(Step(g, es[0]), es[1..], h, TurnAfter(es[0], turn), end, k - 1);
    }
  }

  /** Only a charge leaves the turn to its group. */
  lemma LeftByCharge(es: seq<Event>, turn: Turn, k: nat)
    requires k <= |es| && !turn.Left? && TurnAt(es[..k], turn).Left?
    ensures k > 0 && es[k - 1].Serves? && es[k - 1].id == TurnAt(es[..k], turn).id
  {
    if k > 0 {
      TurnOneMore(es, turn, k - 1);
    }
  }

  /** The j-th event, as a step between the states before and after it. */
  lemma OneBack(g: Tree, es: seq<Event>, h: Tree, turn: Turn, end: Turn, j: nat)
    requires TreeInv(g) && Leads(g, es, h, turn, end) && j < |es|
    ensures var v, t := Run(g, es[..j]), TurnAt(es[..j], turn);
            && TreeInv(v) && Allowed(v, es[j], t)
            && Run(g, es[..j + 1]) == Step(v, es[j]) && TurnAt(es[..j + 1], turn) == TurnAfter(es[j], t)
            && (es[j].Activates? ==> Step(v, es[j]) == v)
  {
    RunOneMore(g, es, j);
    TurnOneMore(es, turn, j);
    AllowedAt(g, es, h, turn, end, j);
    FloorNeverPasses(g, es[..j]);
    hide Run, TurnAt, TreeInv, Leads, Allowed;
  }

  /** A group that holds the turn and is not first holds it since a cooperator of its own took over. */
  lemma {:induction false} HeldSince(g: Tree, es: seq<Event>, h: Tree, turn: Turn, end: Turn, k: nat) returns (j: nat)
    requires TreeInv(g) && Leads(g, es, h, turn, end) && k <= |es|
    requires !turn.Left? && (turn.Held? ==> IsFirst(g, turn.id))
    requires TurnAt(es[..k], turn).Held? && !IsFirst(Run(g, es[..k]), TurnAt(es[..k], turn).id)
    ensures var id := TurnAt(es[..k], turn).id;
            0 < j < k && es[j] == Activates(id, true) && es[j - 1].Serves? && es[j - 1].id == id
            && !IsFirst(Run(g, es[..j]), id)
    decreases k
  {
    assert es[..0] == [];
    j := k - 1;
    var id := TurnAt(es[..k], turn).id;
    OneBack(g, es, h, turn, end, j);
    hide Step, Run, TurnAt, TreeInv, IsFirst, Leads;
    if es[j].Activates? {
      LeftByCharge(es, turn, j);
    } else {
      if IsFirst(Run(g, es[..j]), id) {
        FirstStays(Run(g, es[..j]), es[j], id);
      }
      j := HeldSince(g, es, h, turn, end, j);
    }
  }

  /** Every charge is of the first group, or of one whose cooperator had taken over. */
  ghost predicate FirstOrAstray(g: Tree, es: seq<Event>) {
    forall k :: 0 <= k < |es| && es[k].Serves? ==>
      IsFirst(Run(g, es[..k]), es[k].id) || exists j :: Astray(g, es, j, k)
  }

  /**
   * In every run that starts with no active queue, or with one of the first group, a charge is
   * of the first group unless its queue took over as a cooperator of a group no longer first.
   */
  lemma ChargesAreFirstOrAstray(g: Tree, es: seq<Event>, h: Tree, turn: Turn, end: Turn)
    requires TreeInv(g) && Leads(g, es, h, turn, end)
    requires !turn.Left? && (turn.Held? ==> IsFirst(g, turn.id))
    ensures FirstOrAstray(g, es)
  {
    forall k | 0 <= k < |es| && es[k].Serves?
      ensures IsFirst(Run(g, es[..k]), es[k].id) || exists j :: Astray(g, es, j, k)
    {
      AllowedAt(g, es, h, turn, end, k);
      if !IsFirst(Run(g, es[..k]), es[k].id) {
        var j := HeldSince(g, es, h, turn, end, k);
        assert Astray(g, es, j, k);
      }
    }
  }

  lemma {:induction false} MinFirstAt(g: Tree, es: seq<Event>)
    requires forall k :: 0 <= k < |es| && es[k].Serves? ==> IsFirst(Run(g, es[..k]), es[k].id)
    ensures MinFirst(g, es)
    decreases |es|
  {
    if es != [] {
      assert es[..0] == [];
      var u, fs := Step(g, es[0]), es[1..];
      forall k | 0 <= k < |fs| && fs[k].Serves?
        ensures IsFirst(Run(u, fs[..k]), fs[k].id)
      {
        assert es[..k + 1][1..] == fs[..k] && es[k + 1] == fs[k];
      }
      MinFirstAt(u, fs);
    }
  }

  /** Without cooperators that take over, every charge is of the first group. */
  lemma NobodyAstray(g: Tree, es: seq<Event>, h: Tree, turn: Turn, end: Turn)
    requires TreeInv(g) && Leads(g, es, h, turn, end) && !turn.Left? && (turn.Held? ==> IsFirst(g, turn.id))
    requires forall e :: e in es && e.Activates? ==> !e.coop
    ensures MinFirst(g, es) && Paid(g, es) == Charges(es)
  {
    ChargesAreFirstOrAstray(g, es, h, turn, end);
    forall k | 0 <= k < |es| && es[k].Serves?
      ensures IsFirst(Run(g, es[..k]), es[k].id)
    {
      assert forall j :: 0 <= j < |es| ==> es[j] in es;
    }
    MinFirstAt(g, es);
    MinFirstPays(g, es);
  }

  /** Two groups one unit apart, the first of them active. */
  const TWO_GROUPS := Tree([GNode(0, 1), GNode(ONE, 2)], 0)

  /** The first is charged, a cooperator of its own takes over, and is charged. */
  function TakeOver(c: nat): seq<Event> {
    [Serves(1, c), Activates(1, true), Serves(1, c)]
  }

  /** This may happen, and from a charge of one unit on, the second charge is not of the first group. */
  lemma CooperatorPassesFirst(c: nat)
    ensures TreeInv(TWO_GROUPS) && IsFirst(TWO_GROUPS, 1)
    ensures Leads(TWO_GROUPS, TakeOver(c), Run(TWO_GROUPS, TakeOver(c)), Held(1), Free)
    ensures MinFirst(TWO_GROUPS, TakeOver(c)) <==> c < ONE
    ensures Astray(TWO_GROUPS, TakeOver(c), 1, 2) <==> c >= ONE
  {
    var g := TWO_GROUPS;
    assert g.nodes[0] in g.nodes && OnTree(g, 1);
    ChargedStaysFirst(g, c);
    hide Charged;
    ThreeEvents(g, Serves(1, c), Activates(1, true), Serves(1, c));
  }

  lemma ThreeEvents(g: Tree, a: Event, b: Event, c: Event)
    ensures var u := Step(g, a);
            var es, v, t := [a, b, c], Step(u, b), TurnAfter(b, TurnAfter(a, Held(1)));
            && es[..1] == [a] && Run(g, es[..1]) == u && Run(g, es) == Step(v, c)
            && (Leads(g, es, Step(v, c), Held(1), Free) <==>
                  Allowed(g, a, Held(1)) && Allowed(u, b, TurnAfter(a, Held(1))) && Allowed(v, c, t)
                  && !TurnAfter(c, t).Held?)
            && (MinFirst(g, es) <==> (a.Serves? ==> IsFirst(g, a.id)) && (b.Serves? ==> IsFirst(u, b.id))
                                     && (c.Serves? ==> IsFirst(v, c.id)))
  {
    hide Allowed, IsFirst, Step, Run, Leads, MinFirst, TurnAfter;
    var u, t := Step(g, a), TurnAfter(a, Held(1));
    var v, w := Step(u, b), TurnAfter(b, t);
    var z := Step(v, c);
    assert [a, b, c] == [a] + [b, c] && [b, c] == [b] + [c] && [c] == [c] + [] && [a] == [a] + [];
    assert [a, b, c][..1] == [a];
    NoEvent(z, TurnAfter(c, w));
    NoEvent(u, t);
    OneEvent(v, c, [], z, w);
    OneEvent(u, b, [c], z, t);
    OneEvent(g, a, [b, c], z, Held(1));
    OneEvent(g, a, [], u, Held(1));
  }

  lemma OneEvent(g: Tree, e: Event, fs: seq<Event>, h: Tree, turn: Turn)
    ensures Run(g, [e] + fs) == Run(Step(g, e), fs)
    ensures Leads(g, [e] + fs, h, turn, Free) <==>
            Allowed(g, e, turn) && Leads(Step(g, e), fs, h, TurnAfter(e, turn), Free)
    ensures MinFirst(g, [e] + fs) <==> (e.Serves? ==> IsFirst(g, e.id)) && MinFirst(Step(g, e), fs)
  {
    assert ([e] + fs)[1..] == fs;
  }

  lemma NoEvent(g: Tree, turn: Turn)
    ensures Run(g, []) == g && MinFirst(g, []) && (Leads(g, [], g, turn, Free) <==> !turn.Held?)
  {
  }
}
