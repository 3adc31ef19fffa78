/**
 * Emission over whole work lists, repetitions included: what holds of every list, and exactly when
 * every ID of a port is caught by a group that contains it.
 */
module PacketGroupsRuns {
  import opened Common
  import opened PacketTypes
  import opened PacketGroups
  import opened PacketGroupsProof
  import opened PacketGroupsRepeat
  import opened PacketGroupsLate

  ghost predicate ListOk(workList: seq<PhysPortAndID>, dests: Dests, numMaskBits: nat)
  {
    forall k :: 0 <= k < |workList| ==> workList[k] in dests && workList[k].id < Pow2(numMaskBits)
  }

  lemma ListPrefix(workList: seq<PhysPortAndID>, dests: Dests, numMaskBits: nat, n: nat)
    requires ListOk(workList, dests, numMaskBits) && n <= |workList|
    ensures ListOk(workList[..n], dests, numMaskBits)
  {
  }

  /** Emission with the lookups it needs, for lists that are `ListOk`. */
  ghost function After(workList: seq<PhysPortAndID>, dests: Dests, numMaskBits: nat): (e: Emitted)
    requires ListOk(workList, dests, numMaskBits)
    ensures Usable(e, dests)
  {
    Emission(workList, dests, numMaskBits)
  }

  /** The next entry is new to its port, or already in the first group with its destinations. */
  ghost predicate KeepsOrder(prefix: seq<PhysPortAndID>, slave: PhysPortAndID, dests: Dests, numMaskBits: nat)
    requires ListOk(prefix, dests, numMaskBits) && slave in dests
  {
    var p := slave.physPort;
    var gs := GroupsAt(After(prefix, dests, numMaskBits), p);
    InDestsAt(prefix, dests, numMaskBits, p);
    var k := FirstMatch(p, slave.id, gs, dests, 0);
    slave.id !in IdsAt(prefix, p) || (k < |gs| && slave.id in gs[k])
  }

  lemma InDestsAt(prefix: seq<PhysPortAndID>, dests: Dests, numMaskBits: nat, p: PhysPort)
    requires ListOk(prefix, dests, numMaskBits)
    ensures var e := After(prefix, dests, numMaskBits);
            InDests(p, GroupsAt(e, p), dests) && HaveMasks(p, GroupsAt(e, p), e.masks)
  {
  }

  /** How far the list goes before a repeated entry of `p` is not in the first group with its destinations. */
  ghost function OrderlyLength(workList: seq<PhysPortAndID>, dests: Dests, numMaskBits: nat, p: PhysPort): (m: nat)
    requires ListOk(workList, dests, numMaskBits)
    ensures m <= |workList|
  {
    if workList == [] then 0
    else
      var n := |workList| - 1;
      ListPrefix(workList, dests, numMaskBits, n);
      var m := OrderlyLength(workList[..n], dests, numMaskBits, p);
      if m == n && (workList[n].physPort == p ==>
        KeepsOrder(workList[..n], workList[n], dests, numMaskBits)) then n + 1 else m
  }

  /** The IDs of `p` on a list, in order. */
  function IdSeq(workList: seq<PhysPortAndID>, p: PhysPort): (ids: seq<Id>)
  {
    if workList == [] then []
    else
      var n := |workList| - 1;
      IdSeq(workList[..n], p) + if workList[n].physPort == p then [workList[n].id] else []
  }

  // ---- one more entry, seen from a port

  lemma NextEmission(workList: seq<PhysPortAndID>, dests: Dests, numMaskBits: nat, p: PhysPort)
    requires workList != [] && ListOk(workList, dests, numMaskBits)
    requires ListOk(workList[..|workList| - 1], dests, numMaskBits)
    ensures var n := |workList| - 1;
            var slave := workList[n];
            var e, e' := After(workList[..n], dests, numMaskBits), After(workList, dests, numMaskBits);
            var gs := GroupsAt(e, slave.physPort);
            && InDests(slave.physPort, gs, dests) && HaveMasks(slave.physPort, gs, e.masks)
            && Extends(e.masks, e'.masks, slave.physPort)
            && (slave.physPort != p ==> GroupsAt(e', p) == GroupsAt(e, p))
            && (slave.physPort == p ==>
                  (GroupsAt(e', p), e'.masks) == AddId(p, slave.id, gs, e.masks, dests, numMaskBits))
  {
    var n := |workList| - 1;
    var e := Emission(workList[..n], dests, numMaskBits);
    EntryUsable(e, workList[n], dests, numMaskBits);
    hide AddId, InDests, HaveMasks, Usable, Extends;
    AddIdKeeps(workList[n].physPort, workList[n].id, GroupsAt(e, workList[n].physPort), e.masks, dests, numMaskBits);
  }

  lemma OtherPortOk(p: PhysPort, q: PhysPort, gs: seq<Group>, masks: Masks, masks': Masks, dests: Dests,
                    numMaskBits: nat, done: set<Id>)
    requires PortOk(p, gs, masks, dests, numMaskBits, done) && Extends(masks, masks', q) && p != q
    ensures PortOk(p, gs, masks', dests, numMaskBits, done)
  {
    OtherPort(p, gs, masks, masks', dests, numMaskBits, done);
  }

  lemma OtherPortLate(p: PhysPort, q: PhysPort, gs: seq<Group>, masks: Masks, masks': Masks, base: seq<Group>,
                      extra: seq<Id>, numMaskBits: nat)
    requires Late(p, gs, masks, base, extra, numMaskBits) && Extends(masks, masks', q) && p != q
    ensures Late(p, gs, masks', base, extra, numMaskBits)
  {
    hide SortGroups, GroupMask;
  }

  /** A repeated ID has a group with its destinations. */
  lemma MatchExists(port: PhysPort, gs: seq<Group>, masks: Masks, dests: Dests, numMaskBits: nat, done: set<Id>, x: Id)
    requires PortOk(port, gs, masks, dests, numMaskBits, done) && InDests(port, gs, dests) && x in done
    requires PhysPortAndID(port, x) in dests
    ensures FirstMatch(port, x, gs, dests, 0) < |gs|
  {
    hide PortOk, InDests, FirstMatch;
    var own := OwnPlace(port, gs, masks, dests, numMaskBits, done, x);
    assert gs[own] in gs;
    BaseIds(port, gs, masks, dests, numMaskBits, done, gs[own], x);
  }

  // ---- the two states a port can be in

  ghost predicate InOrder(workList: seq<PhysPortAndID>, dests: Dests, numMaskBits: nat, p: PhysPort)
    requires ListOk(workList, dests, numMaskBits)
  {
    var e := After(workList, dests, numMaskBits);
    PortOk(p, GroupsAt(e, p), e.masks, dests, numMaskBits, IdsAt(workList, p))
  }

  /** Order was lost after `m` entries. */
  ghost predicate OutOfOrder(workList: seq<PhysPortAndID>, dests: Dests, numMaskBits: nat, p: PhysPort, m: nat)
    requires m <= |workList| && ListOk(workList, dests, numMaskBits) && ListOk(workList[..m], dests, numMaskBits)
  {
    var e, e0 := After(workList, dests, numMaskBits), After(workList[..m], dests, numMaskBits);
    var base, extra := GroupsAt(e0, p), IdSeq(workList[m..], p);
    && Overlapping(p, base, e0.masks, extra, dests, numMaskBits, IdsAt(workList[..m], p))
    && Late(p, GroupsAt(e, p), e.masks, base, extra, numMaskBits)
  }

  lemma InOrderNext(workList: seq<PhysPortAndID>, dests: Dests, numMaskBits: nat, p: PhysPort)
    requires workList != [] && ListOk(workList, dests, numMaskBits)
    requires ListOk(workList[..|workList| - 1], dests, numMaskBits)
    requires InOrder(workList[..|workList| - 1], dests, numMaskBits, p)
    requires var n := |workList| - 1; workList[n].physPort == p ==>
               KeepsOrder(workList[..n], workList[n], dests, numMaskBits)
    ensures InOrder(workList, dests, numMaskBits, p)
  {
    hide PortOk, AddId, Extends, InDests, HaveMasks, FirstMatch, Pow2;
    var n := |workList| - 1;
    var slave, e, e' := workList[n], After(workList[..n], dests, numMaskBits), After(workList, dests, numMaskBits);
    var gs, done := GroupsAt(e, p), IdsAt(workList[..n], p);
    NextEmission(workList, dests, numMaskBits, p);
    IdsAtNext(workList, p);
    hide After, GroupsAt, IdsAt, Emission;
    if slave.physPort != p {
      OtherPortOk(p, slave.physPort, gs, e.masks, e'.masks, dests, numMaskBits, done);
      assert done + {} == done;
    } else if slave.id !in done {
      AddIdOk(p, slave.id, gs, e.masks, dests, numMaskBits, done);
    } else {
      RepeatHarmless(p, slave.id, gs, e.masks, dests, numMaskBits, done, FirstMatch(p, slave.id, gs, dests, 0));
      assert done + {slave.id} == done;
    }
  }

  lemma OrderLost(workList: seq<PhysPortAndID>, dests: Dests, numMaskBits: nat, p: PhysPort)
    requires workList != [] && ListOk(workList, dests, numMaskBits)
    requires ListOk(workList[..|workList| - 1], dests, numMaskBits)
    requires InOrder(workList[..|workList| - 1], dests, numMaskBits, p)
    requires var n := |workList| - 1;
      workList[n].physPort == p && !KeepsOrder(workList[..n], workList[n], dests, numMaskBits)
    ensures OutOfOrder(workList, dests, numMaskBits, p, |workList| - 1)
  {
    hide PortOk, AddId, Extends, InDests, HaveMasks, FirstMatch, Pow2, Late, Overlapping;
    var n := |workList| - 1;
    var slave, e := workList[n], After(workList[..n], dests, numMaskBits);
    var gs, done := GroupsAt(e, p), IdsAt(workList[..n], p);
    NextEmission(workList, dests, numMaskBits, p);
    OneId(workList[n..], p);
    hide After, GroupsAt, IdsAt, Emission, IdSeq;
    MatchExists(p, gs, e.masks, dests, numMaskBits, done, slave.id);
    EnterLate(p, slave.id, gs, e.masks, dests, numMaskBits, done);
  }

  lemma OneId(w: seq<PhysPortAndID>, p: PhysPort)
    requires |w| == 1 && w[0].physPort == p
    ensures IdSeq(w, p) == [w[0].id]
  {
    assert w[..0] == [];
    assert IdSeq([], p) == [];
  }

  lemma OutOfOrderNext(workList: seq<PhysPortAndID>, dests: Dests, numMaskBits: nat, p: PhysPort, m: nat)
    requires workList != [] && ListOk(workList, dests, numMaskBits)
    requires ListOk(workList[..|workList| - 1], dests, numMaskBits)
    requires m < |workList| && ListOk(workList[..m], dests, numMaskBits)
    requires workList[..|workList| - 1][..m] == workList[..m]
    requires OutOfOrder(workList[..|workList| - 1], dests, numMaskBits, p, m)
    ensures OutOfOrder(workList, dests, numMaskBits, p, m)
  {
    hide PortOk, AddId, Extends, InDests, HaveMasks, FirstMatch, Late;
    var n := |workList| - 1;
    var slave, e, e' := workList[n], After(workList[..n], dests, numMaskBits), After(workList, dests, numMaskBits);
    var e0 := After(workList[..m], dests, numMaskBits);
    var base, extra := GroupsAt(e0, p), IdSeq(workList[..n][m..], p);
    NextEmission(workList, dests, numMaskBits, p);
    NextIds(workList, m, p);
    hide After, GroupsAt, IdsAt, Emission, IdSeq;
    if slave.physPort != p {
      assert extra + [] == extra;
      OtherPortLate(p, slave.physPort, GroupsAt(e, p), e.masks, e'.masks, base, extra, numMaskBits);
    } else {
      assert Declared(p, dests, numMaskBits, slave.id);
      hide Declared, Pow2;
      LateStep(p, GroupsAt(e, p), e.masks, base, e0.masks, extra, dests, numMaskBits, IdsAt(workList[..m], p),
        slave.id);
    }
  }

  lemma NextIds(workList: seq<PhysPortAndID>, m: nat, p: PhysPort)
    requires m < |workList|
    ensures var n := |workList| - 1;
            IdSeq(workList[m..], p) ==
            IdSeq(workList[..n][m..], p) + if workList[n].physPort == p then [workList[n].id] else []
  {
    var w := workList[m..];
    assert w[..|w| - 1] == workList[..|workList| - 1][m..];
  }

  /** Every work list leaves every port in one of the two states, decided by its orderly length. */
  lemma {:induction false} PortState(workList: seq<PhysPortAndID>, dests: Dests, numMaskBits: nat, p: PhysPort)
    requires ListOk(workList, dests, numMaskBits)
    ensures var m := OrderlyLength(workList, dests, numMaskBits, p);
            && ListOk(workList[..m], dests, numMaskBits)
            && if m == |workList| then InOrder(workList, dests, numMaskBits, p)
                 else OutOfOrder(workList, dests, numMaskBits, p, m)
    decreases |workList|
  {
    hide InOrder, OutOfOrder, KeepsOrder, ListOk;
    var m := OrderlyLength(workList, dests, numMaskBits, p);
    ListPrefix(workList, dests, numMaskBits, m);
    if workList == [] {
      EmptyInOrder(dests, numMaskBits, p);
    } else {
      var n := |workList| - 1;
      ListPrefix(workList, dests, numMaskBits, n);
      PortState(workList[..n], dests, numMaskBits, p);
      var m' := OrderlyLength(workList[..n], dests, numMaskBits, p);
      if m' < n {
        assert workList[..n][..m'] == workList[..m'];
        OutOfOrderNext(workList, dests, numMaskBits, p, m');
      } else if m == n + 1 {
        InOrderNext(workList, dests, numMaskBits, p);
      } else {
        OrderLost(workList, dests, numMaskBits, p);
      }
    }
  }

  lemma EmptyInOrder(dests: Dests, numMaskBits: nat, p: PhysPort)
    ensures ListOk([], dests, numMaskBits) && InOrder([], dests, numMaskBits, p)
  {
    EmptyPort(p, dests, numMaskBits);
    assert IdsAt([], p) == {};
  }

  // ---- exactly when the rules are right

  /** The IDs of `p` that come once its order is lost include, with the smallest ID of a group, the whole group. */
  ghost predicate PortGood(workList: seq<PhysPortAndID>, dests: Dests, numMaskBits: nat, p: PhysPort)
    requires ListOk(workList, dests, numMaskBits)
  {
    var m := OrderlyLength(workList, dests, numMaskBits, p);
    ListPrefix(workList, dests, numMaskBits, m);
    Covered(GroupsAt(After(workList[..m], dests, numMaskBits), p), IdSeq(workList[m..], p))
  }

  /** Every ID of `p` is caught by a group that contains it. */
  ghost predicate AllCaught(workList: seq<PhysPortAndID>, dests: Dests, numMaskBits: nat, p: PhysPort)
    requires ListOk(workList, dests, numMaskBits)
  {
    var e := After(workList, dests, numMaskBits);
    InDestsAt(workList, dests, numMaskBits, p);
    forall x :: x in IdsAt(workList, p) ==> Caught(p, GroupsAt(e, p), e.masks, x)
  }

  /** For every work list and port: the rules catch all IDs as they should if and only if the port is good. */
  lemma AllCaughtIff(workList: seq<PhysPortAndID>, dests: Dests, numMaskBits: nat, p: PhysPort)
    requires ListOk(workList, dests, numMaskBits)
    ensures AllCaught(workList, dests, numMaskBits, p) <==> PortGood(workList, dests, numMaskBits, p)
  {
    hide Late, Overlapping, PortOk, ListOk, Caught, HaveMasks, InDests, OrderlyLength;
    PortState(workList, dests, numMaskBits, p);
    var m := OrderlyLength(workList, dests, numMaskBits, p);
    var e := After(workList, dests, numMaskBits);
    InDestsAt(workList, dests, numMaskBits, p);
    if m == |workList| {
      assert workList[..m] == workList && workList[m..] == [] && IdSeq([], p) == [];
      hide After;
      forall x | x in IdsAt(workList, p)
        ensures Caught(p, GroupsAt(e, p), e.masks, x)
      {
        OrderCatches(p, GroupsAt(e, p), e.masks, dests, numMaskBits, IdsAt(workList, p), x);
      }
    } else {
      var e0 := After(workList[..m], dests, numMaskBits);
      IdsSplit(workList, m, p);
      hide After;
      LateIff(p, GroupsAt(e, p), e.masks, GroupsAt(e0, p), e0.masks, IdSeq(workList[m..], p), dests, numMaskBits,
        IdsAt(workList[..m], p));
    }
  }

  lemma OrderCatches(p: PhysPort, gs: seq<Group>, masks: Masks, dests: Dests, numMaskBits: nat, done: set<Id>, x: Id)
    requires PortOk(p, gs, masks, dests, numMaskBits, done) && HaveMasks(p, gs, masks) && x in done
    ensures Caught(p, gs, masks, x)
  {
    hide PortOk, HaveMasks;
    var own := OwnPlace(p, gs, masks, dests, numMaskBits, done, x);
    OwnRuleFirst(p, gs, masks, dests, numMaskBits, done, x, 0, own);
  }

  lemma {:induction false} IdsSplit(workList: seq<PhysPortAndID>, m: nat, p: PhysPort)
    requires m <= |workList|
    ensures forall x :: x in IdsAt(workList, p) <==> x in IdsAt(workList[..m], p) || x in IdSeq(workList[m..], p)
    decreases |workList|
  {
    if m == |workList| {
      assert workList[..m] == workList && workList[m..] == [] && IdSeq([], p) == [];
    } else {
      var n := |workList| - 1;
      IdsSplit(workList[..n], m, p);
      assert workList[..n][..m] == workList[..m];
      IdsAtNext(workList, p);
      NextIds(workList, m, p);
      hide IdSeq, IdsAt;
    }
  }

  /** Work lists without repetitions are good. */
  lemma {:induction false} DistinctGood(workList: seq<PhysPortAndID>, dests: Dests, numMaskBits: nat, p: PhysPort)
    requires ListOk(workList, dests, numMaskBits) && NoDup(workList)
    ensures OrderlyLength(workList, dests, numMaskBits, p) == |workList| && PortGood(workList, dests, numMaskBits, p)
    decreases |workList|
  {
    hide After;
    assert workList[|workList|..] == [] && IdSeq([], p) == [];
    if workList != [] {
      var n := |workList| - 1;
      ListPrefix(workList, dests, numMaskBits, n);
      DistinctGood(workList[..n], dests, numMaskBits, p);
      if workList[n].physPort == p {
        FreshId(workList, p);
      }
    }
  }

  /** Members of a group have one destination set, on every work list. */
  lemma GroupsShareDests(workList: seq<PhysPortAndID>, dests: Dests, numMaskBits: nat, p: PhysPort, g: Group, y: Id)
    requires ListOk(workList, dests, numMaskBits) && g in GroupsAt(After(workList, dests, numMaskBits), p) && y in g
    ensures PhysPortAndID(p, y) in dests && PhysPortAndID(p, g[0]) in dests
    ensures dests[PhysPortAndID(p, y)] == dests[PhysPortAndID(p, g[0])]
  {
    hide PortOk, ListOk, OrderlyLength;
    PortState(workList, dests, numMaskBits, p);
    var m := OrderlyLength(workList, dests, numMaskBits, p);
    var e := After(workList, dests, numMaskBits);
    if m == |workList| {
      BaseIds(p, GroupsAt(e, p), e.masks, dests, numMaskBits, IdsAt(workList, p), g, y);
    } else {
      var e0, extra := After(workList[..m], dests, numMaskBits), IdSeq(workList[m..], p);
      LateMembers(GroupsAt(e0, p), extra);
      hide SortGroups, After;
      if g in GroupsAt(e0, p) {
        BaseIds(p, GroupsAt(e0, p), e0.masks, dests, numMaskBits, IdsAt(workList[..m], p), g, y);
      } else {
        var x :| x in extra && g == [x];
        assert Declared(p, dests, numMaskBits, x) && y == x;
      }
    }
  }

  /** A good port: the first rule matching a declared ID is that of a group whose members share its destinations. */
  lemma RulesPreserveDests(workList: seq<PhysPortAndID>, dests: Dests, numMaskBits: nat, slave: PhysPortAndID)
    requires ListOk(workList, dests, numMaskBits) && slave in workList
    requires PortGood(workList, dests, numMaskBits, slave.physPort)
    ensures var e := After(workList, dests, numMaskBits);
            var p := slave.physPort;
            && HaveMasks(p, GroupsAt(e, p), e.masks)
            && FirstRule(p, GroupsAt(e, p), e.masks, slave.id, 0).Some?
            && var i := FirstRule(p, GroupsAt(e, p), e.masks, slave.id, 0).value;
               && i < |GroupsAt(e, p)| && slave.id in GroupsAt(e, p)[i]
               && (forall y :: y in GroupsAt(e, p)[i] ==>
                     PhysPortAndID(p, y) in dests && dests[PhysPortAndID(p, y)] == dests[slave])
  {
    var e := After(workList, dests, numMaskBits);
    var p := slave.physPort;
    AllCaughtIff(workList, dests, numMaskBits, p);
    var k :| 0 <= k < |workList| && workList[k] == slave;
    assert slave.id in IdsAt(workList, p);
    InDestsAt(workList, dests, numMaskBits, p);
    assert Caught(p, GroupsAt(e, p), e.masks, slave.id);
    hide After, PortGood, AllCaught, HaveMasks, InDests, FirstRule, ListOk, IdsAt;
    var g := GroupsAt(e, p)[FirstRule(p, GroupsAt(e, p), e.masks, slave.id, 0).value];
    GroupsShareDests(workList, dests, numMaskBits, p, g, slave.id);
    forall y | y in g
      ensures PhysPortAndID(p, y) in dests && dests[PhysPortAndID(p, y)] == dests[slave]
    {
      GroupsShareDests(workList, dests, numMaskBits, p, g, y);
    }
  }

  /** One repeated ID on a port in order: harmless unless it is the smallest of a larger group and comes late. */
  lemma RepeatIff(port: PhysPort, x: Id, gs: seq<Group>, masks: Masks, dests: Dests, numMaskBits: nat, done: set<Id>,
                  own: nat)
    requires PortOk(port, gs, masks, dests, numMaskBits, done) && InDests(port, gs, dests) && HaveMasks(port, gs, masks)
    requires own < |gs| && x in gs[own] && PhysPortAndID(port, x) in dests
    ensures var r := AddId(port, x, gs, masks, dests, numMaskBits);
            && HaveMasks(port, r.0, r.1)
            && ((forall w :: w in done ==> Caught(port, r.0, r.1, w)) <==>
                !(FirstMatch(port, x, gs, dests, 0) != own && gs[own][0] == x && |gs[own]| > 1))
  {
    AddIdKeeps(port, x, gs, masks, dests, numMaskBits);
    assert gs[own] in gs;
    BaseIds(port, gs, masks, dests, numMaskBits, done, gs[own], x);
    hide AddId, HaveMasks, InDests, Caught, FirstMatch;
    var k := FirstMatch(port, x, gs, dests, 0);
    var r := AddId(port, x, gs, masks, dests, numMaskBits);
    if k == own {
      hide PortOk;
      RepeatHarmless(port, x, gs, masks, dests, numMaskBits, done, own);
      forall w | w in done
        ensures Caught(port, r.0, r.1, w)
      {
        OrderCatches(port, gs, masks, dests, numMaskBits, done, w);
      }
    } else {
      MatchExists(port, gs, masks, dests, numMaskBits, done, x);
      assert x !in gs[k] by { assert gs[k] in gs && gs[k] != gs[own] && Disjoint(gs[own], gs[k]); }
      CoveredByOne(gs, x, own, port, masks, dests, numMaskBits, done);
      hide PortOk;
      EnterLate(port, x, gs, masks, dests, numMaskBits, done);
      LateIff(port, r.0, r.1, gs, masks, [x], dests, numMaskBits, done);
    }
  }

  lemma CoveredByOne(gs: seq<Group>, x: Id, own: nat, port: PhysPort, masks: Masks, dests: Dests, numMaskBits: nat,
                     done: set<Id>)
    requires PortOk(port, gs, masks, dests, numMaskBits, done) && own < |gs| && x in gs[own]
    ensures Covered(gs, [x]) <==> !(gs[own][0] == x && |gs[own]| > 1)
  {
    var g := gs[own];
    assert g in gs;
    forall h | h in gs && h != [] && h[0] in [x]
      ensures h == g
    {
      assert h[0] in h && (h != g ==> Disjoint(h, g));
    }
    if g[0] == x && |g| > 1 {
      assert GroupOk(port, g, masks, dests, numMaskBits);
      assert g[0] < g[1] && g[1] in g && g[0] in [x] && g[1] !in [x];
    } else {
      hide PortOk;
      forall h, y | h in gs && h != [] && h[0] in [x] && y in h
        ensures y in [x]
      {
        OneOrMore(h, y);
        assert h == g && h[0] == x;
      }
    }
  }
}
