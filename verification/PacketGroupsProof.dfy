/** What the greedy merging keeps after every work-list entry, and what the rules then mean. */
module PacketGroupsProof {
  import opened Common
  import opened PacketTypes
  import opened PacketGroups

  /** `g` is a set of declared IDs with one destination set, and its exact mask is stored under each. */
  ghost predicate GroupOk(port: PhysPort, g: Group, masks: Masks, dests: Dests, numMaskBits: nat)
  {
    && g != [] && Ascending(g)
    && (forall x :: x in g ==> IdOk(port, x, g, masks, dests, numMaskBits))
  }

  ghost predicate Ascending(g: Group)
  {
    forall i, j :: 0 <= i < j < |g| ==> g[i] < g[j]
  }

  lemma AscendingTail(g: Group, r: Group, x: Id)
    requires g != [] && Ascending(g) && g[0] < x && Ascending(r) && forall y :: y in r <==> y in g[1..] || y == x
    ensures Ascending([g[0]] + r)
  {
    assert forall y :: y in g[1..] ==> g[0] < y;
    assert forall k :: 0 <= k < |r| ==> r[k] in r;
  }

  lemma {:induction false} InsertAscending(g: Group, x: Id)
    requires Ascending(g)
    ensures Ascending(InsertId(g, x))
    ensures x in g ==> InsertId(g, x) == g
  {
    if g != [] && x > g[0] {
      assert g == [g[0]] + g[1..];
      InsertAscending(g[1..], x);
      AscendingTail(g, InsertId(g[1..], x), x);
    } else if g != [] && x < g[0] {
      assert forall y :: y in g ==> g[0] <= y;
    }
  }

  ghost predicate IdOk(port: PhysPort, x: Id, g: Group, masks: Masks, dests: Dests, numMaskBits: nat)
    requires g != []
  {
    var k, k0 := PhysPortAndID(port, x), PhysPortAndID(port, g[0]);
    && x < Pow2(numMaskBits)
    && k in dests && k0 in dests && dests[k] == dests[k0]
    && k in masks && masks[k] == GroupMask(g, numMaskBits)
  }

  ghost predicate Disjoint(a: Group, b: Group)
  {
    forall x :: x in a ==> x !in b
  }

  ghost predicate NotMatched(a: Group, b: Group, numMaskBits: nat)
    requires a != []
  {
    forall x :: x in b ==> !MaskedEqual(x, a[0], GroupMask(a, numMaskBits))
  }

  /** The groups of a port partition `done`, and no rule matches an ID of a group sorted after it. */
  ghost predicate PortOk(port: PhysPort, gs: seq<Group>, masks: Masks, dests: Dests, numMaskBits: nat, done: set<Id>)
  {
    && Sorted(gs) && NoDup(gs)
    && (forall g :: g in gs ==> GroupOk(port, g, masks, dests, numMaskBits))
    && (forall a, b :: a in gs && b in gs && a != b ==> Disjoint(a, b))
    && (forall a, b :: a in gs && b in gs && GroupLess(a, b) ==> NotMatched(a, b, numMaskBits))
    && (forall x :: x in done <==> exists g :: g in gs && x in g)
  }

  lemma SortMembers(gs: seq<Group>)
    ensures forall g :: g in SortGroups(gs) <==> g in gs
  {
    forall g
      ensures g in SortGroups(gs) <==> g in gs
    {
      assert g in multiset(SortGroups(gs)) <==> g in multiset(gs);
    }
  }

  /** Sorting a list of distinct groups. */
  lemma SortKeeps(gs: seq<Group>)
    requires NoDup(gs)
    ensures Sorted(SortGroups(gs)) && NoDup(SortGroups(gs))
    ensures forall g :: g in SortGroups(gs) <==> g in gs
  {
    SortSorted(gs);
    SortMembers(gs);
    NoDupPermuted(SortGroups(gs), gs);
  }

  // ---- the singleton path is safe without re-verification

  lemma SingletonOk(port: PhysPort, x: Id, masks: Masks, dests: Dests, numMaskBits: nat)
    requires x < Pow2(numMaskBits) && PhysPortAndID(port, x) in dests
    ensures GroupOk(port, [x], UpdatedMasks(port, [x], masks, numMaskBits), dests, numMaskBits)
  {
  }

  /** Storing another group's mask does not disturb a group it shares no ID with. */
  lemma UnrelatedMask(port: PhysPort, g: Group, other: Group, masks: Masks, dests: Dests, numMaskBits: nat)
    requires GroupOk(port, g, masks, dests, numMaskBits) && Disjoint(g, other)
    ensures GroupOk(port, g, UpdatedMasks(port, other, masks, numMaskBits), dests, numMaskBits)
  {
    var m := UpdatedMasks(port, other, masks, numMaskBits);
    forall x | x in g
      ensures IdOk(port, x, g, m, dests, numMaskBits)
    {
      assert IdOk(port, x, g, masks, dests, numMaskBits);
    }
  }

  /** A singleton neither is shadowed by a smaller group nor shadows a larger one. */
  lemma SingletonOrder(port: PhysPort, x: Id, g: Group, masks: Masks, dests: Dests, numMaskBits: nat)
    requires x < Pow2(numMaskBits) && x !in g && GroupOk(port, g, masks, dests, numMaskBits)
    ensures NotMatched([x], g, numMaskBits)
    ensures GroupLess(g, [x]) ==> NotMatched(g, [x], numMaskBits)
  {
    forall y | y in g
      ensures !MaskedEqual(y, x, GroupMask([x], numMaskBits))
    {
      assert IdOk(port, y, g, masks, dests, numMaskBits);
      SingletonMatches(x, y, numMaskBits);
    }
    if GroupLess(g, [x]) {
      assert g == [g[0]] && g[0] in g;
      assert IdOk(port, g[0], g, masks, dests, numMaskBits);
      SingletonMatches(g[0], x, numMaskBits);
    }
  }

  lemma NewGroupOk(port: PhysPort, x: Id, gs: seq<Group>, masks: Masks, dests: Dests, numMaskBits: nat, done: set<Id>)
    requires PortOk(port, gs, masks, dests, numMaskBits, done)
    requires x !in done && x < Pow2(numMaskBits) && PhysPortAndID(port, x) in dests
    ensures var r := NewGroup(port, x, gs, masks, numMaskBits);
            PortOk(port, r.0, r.1, dests, numMaskBits, done + {x})
  {
    var gs1 := gs + [[x]];
    var m := UpdatedMasks(port, [x], masks, numMaskBits);
    var s := [x];
    hide Sorted;
    assert forall g :: g in gs1 <==> g in gs || g == s;
    assert s !in gs by {
      assert s in gs ==> x in s;
    }
    NoDupConcat(gs, [s]);
    SortKeeps(gs1);
    SingletonOk(port, x, masks, dests, numMaskBits);
    forall g | g in gs
      ensures GroupOk(port, g, m, dests, numMaskBits) && Disjoint(g, s)
      ensures NotMatched(s, g, numMaskBits) && (GroupLess(g, s) ==> NotMatched(g, s, numMaskBits))
    {
      assert x !in g;
      UnrelatedMask(port, g, s, masks, dests, numMaskBits);
      SingletonOrder(port, x, g, masks, dests, numMaskBits);
    }
    hide GroupOk, NotMatched, GroupLess, SortGroups, NoDup;
    assert !GroupLess(s, s) by { LessTotal(s, s); }
    DoneWith(gs, gs1, x, done);
  }

  lemma DoneWith(gs: seq<Group>, gs1: seq<Group>, x: Id, done: set<Id>)
    requires forall y :: y in done <==> exists g :: g in gs && y in g
    requires forall g :: g in gs1 <==> g in gs || g == [x]
    ensures forall y :: y in done + {x} <==> exists g :: g in gs1 && y in g
  {
    forall y | y in done + {x}
      ensures exists g :: g in gs1 && y in g
    {
      if y == x {
        assert [x] in gs1 && x in [x];
      } else {
        var g :| g in gs && y in g;
        assert g in gs1;
      }
    }
  }

  // ---- merging and rolling back

  lemma {:induction false} InsertFirst(g: Group, x: Id)
    requires g != []
    ensures InsertId(g, x)[0] == x || InsertId(g, x)[0] == g[0]
  {
  }

  /** Undoing a rejected merge restores the mask of every member of every group. */
  lemma RollbackOk(port: PhysPort, x: Id, gs: seq<Group>, masks: Masks, dests: Dests, numMaskBits: nat, done: set<Id>,
                   k: nat)
    requires PortOk(port, gs, masks, dests, numMaskBits, done) && x !in done && k < |gs|
    ensures var m1 := UpdatedMasks(port, InsertId(gs[k], x), masks, numMaskBits);
            PortOk(port, gs, UpdatedMasks(port, gs[k], m1, numMaskBits), dests, numMaskBits, done)
  {
    hide Sorted, NoDup, NotMatched;
    var group := InsertId(gs[k], x);
    var m1 := UpdatedMasks(port, group, masks, numMaskBits);
    var m2 := UpdatedMasks(port, gs[k], m1, numMaskBits);
    forall g | g in gs
      ensures GroupOk(port, g, m2, dests, numMaskBits)
    {
      assert x !in g;
      forall y | y in g
        ensures IdOk(port, y, g, m2, dests, numMaskBits)
      {
        assert IdOk(port, y, g, masks, dests, numMaskBits);
        assert g != gs[k] ==> Disjoint(g, gs[k]);
      }
    }
  }

  lemma MergedGroupOk(port: PhysPort, x: Id, g: Group, masks: Masks, dests: Dests, numMaskBits: nat)
    requires GroupOk(port, g, masks, dests, numMaskBits) && x < Pow2(numMaskBits)
    requires PhysPortAndID(port, x) in dests && PhysPortAndID(port, g[0]) in dests
    requires dests[PhysPortAndID(port, g[0])] == dests[PhysPortAndID(port, x)]
    ensures GroupOk(port, InsertId(g, x), UpdatedMasks(port, InsertId(g, x), masks, numMaskBits), dests, numMaskBits)
  {
    InsertFirst(g, x);
    InsertAscending(g, x);
    forall y | y in g
      ensures IdOk(port, y, g, masks, dests, numMaskBits)
    {
    }
  }

  /** A verified merge. */
  lemma MergeOk(port: PhysPort, x: Id, gs: seq<Group>, masks: Masks, dests: Dests, numMaskBits: nat, done: set<Id>,
                k: nat)
    requires PortOk(port, gs, masks, dests, numMaskBits, done)
    requires x !in done && x < Pow2(numMaskBits) && PhysPortAndID(port, x) in dests && k < |gs|
    requires gs[k] != [] && PhysPortAndID(port, gs[k][0]) in dests
    requires dests[PhysPortAndID(port, gs[k][0])] == dests[PhysPortAndID(port, x)]
    requires var m := Merged(port, x, gs, masks, numMaskBits, k);
             HaveMasks(port, m.0, m.1) && NoShadowing(port, m.0, m.1)
    ensures var m := Merged(port, x, gs, masks, numMaskBits, k);
            PortOk(port, m.0, m.1, dests, numMaskBits, done + {x})
  {
    hide GroupOk, NotMatched, GroupLess, SortGroups, NoDup, Sorted;
    hide NoShadowing, HaveMasks, UpdatedMasks, InsertId, Disjoint;
    var group := InsertId(gs[k], x);
    var gs1 := gs[k := group];
    var m := Merged(port, x, gs, masks, numMaskBits, k);
    assert gs[k] in gs;
    MergedMembers(gs, k, x, group, done);
    SortKeeps(gs1);
    MergedGroupsOk(port, x, gs, gs[k], masks, dests, numMaskBits, done);
    VerifiedPairs(port, m.0, m.1, dests, numMaskBits);
  }

  lemma MergedGroupsOk(port: PhysPort, x: Id, gs: seq<Group>, was: Group, masks: Masks, dests: Dests, numMaskBits: nat,
                       done: set<Id>)
    requires forall g :: g in gs ==> GroupOk(port, g, masks, dests, numMaskBits)
    requires forall a, b :: a in gs && b in gs && a != b ==> Disjoint(a, b)
    requires forall y :: y in done <==> exists g :: g in gs && y in g
    requires x !in done && x < Pow2(numMaskBits) && PhysPortAndID(port, x) in dests && was in gs
    requires was != [] && PhysPortAndID(port, was[0]) in dests
    requires dests[PhysPortAndID(port, was[0])] == dests[PhysPortAndID(port, x)]
    ensures var group := InsertId(was, x);
            var m := UpdatedMasks(port, group, masks, numMaskBits);
            && GroupOk(port, group, m, dests, numMaskBits)
            && forall g :: g in gs && g != was ==>
                 GroupOk(port, g, m, dests, numMaskBits) && Disjoint(g, group) && Disjoint(group, g)
  {
    MergedGroupOk(port, x, was, masks, dests, numMaskBits);
    hide GroupOk, UpdatedMasks;
    var group := InsertId(was, x);
    forall g | g in gs && g != was
      ensures GroupOk(port, g, UpdatedMasks(port, group, masks, numMaskBits), dests, numMaskBits)
      ensures Disjoint(g, group) && Disjoint(group, g)
    {
      assert Disjoint(g, was) && x !in g;
      UnrelatedMask(port, g, group, masks, dests, numMaskBits);
    }
  }

  lemma VerifiedPairs(port: PhysPort, gs: seq<Group>, masks: Masks, dests: Dests, numMaskBits: nat)
    requires HaveMasks(port, gs, masks) && NoShadowing(port, gs, masks) && Sorted(gs)
    requires forall g :: g in gs ==> GroupOk(port, g, masks, dests, numMaskBits)
    ensures forall a, b :: a in gs && b in gs && GroupLess(a, b) ==> NotMatched(a, b, numMaskBits)
  {
    hide HaveMasks, NoShadowing, Sorted, GroupLess, NotMatched, IdOk;
    forall a, b | a in gs && b in gs && GroupLess(a, b)
      ensures NotMatched(a, b, numMaskBits)
    {
      VerifiedPair(port, gs, masks, dests, numMaskBits, a, b);
    }
  }

  lemma VerifiedPair(port: PhysPort, gs: seq<Group>, masks: Masks, dests: Dests, numMaskBits: nat, a: Group, b: Group)
    requires HaveMasks(port, gs, masks) && NoShadowing(port, gs, masks) && Sorted(gs)
    requires a in gs && b in gs && GroupLess(a, b) && GroupOk(port, a, masks, dests, numMaskBits)
    ensures NotMatched(a, b, numMaskBits)
  {
    var i :| 0 <= i < |gs| && gs[i] == a;
    var j :| 0 <= j < |gs| && gs[j] == b;
    LessTotal(a, b);
    assert i < j;
    forall y | y in b
      ensures !MaskedEqual(y, a[0], GroupMask(a, numMaskBits))
    {
      assert !RuleMatches(port, gs[i], masks, y);
      assert IdOk(port, a[0], a, masks, dests, numMaskBits);
    }
  }

  lemma MergedMembers(gs: seq<Group>, k: nat, x: Id, group: Group, done: set<Id>)
    requires NoDup(gs) && k < |gs| && gs[k] != [] && group == InsertId(gs[k], x) && x !in done
    requires forall a, b :: a in gs && b in gs && a != b ==> Disjoint(a, b)
    requires forall y :: y in done <==> exists g :: g in gs && y in g
    ensures NoDup(gs[k := group])
    ensures forall g :: g in gs[k := group] <==> g == group || (g in gs && g != gs[k])
    ensures forall y :: y in done + {x} <==> exists g :: g in gs[k := group] && y in g
  {
    var gs1 := gs[k := group];
    assert group !in gs by { assert x in group; }
    forall g | g in gs && g != gs[k]
      ensures g in gs1
    {
      var i :| 0 <= i < |gs| && gs[i] == g;
      assert gs1[i] == g;
    }
    assert gs1[k] == group;
    forall y | y in done + {x}
      ensures exists g :: g in gs1 && y in g
    {
      if y == x || y in gs[k] {
        assert group in gs1 && y in group;
      } else {
        var g :| g in gs && y in g;
        assert g in gs1;
      }
    }
  }

  /** One work-list entry keeps the invariant. */
  lemma AddIdOk(port: PhysPort, x: Id, gs: seq<Group>, masks: Masks, dests: Dests, numMaskBits: nat, done: set<Id>)
    requires PortOk(port, gs, masks, dests, numMaskBits, done) && InDests(port, gs, dests) && HaveMasks(port, gs, masks)
    requires x !in done && x < Pow2(numMaskBits) && PhysPortAndID(port, x) in dests
    ensures var r := AddId(port, x, gs, masks, dests, numMaskBits);
            PortOk(port, r.0, r.1, dests, numMaskBits, done + {x})
  {
    hide PortOk;
    var k := FirstMatch(port, x, gs, dests, 0);
    if k < |gs| {
      var m := Merged(port, x, gs, masks, numMaskBits, k);
      MergedMasks(port, x, gs, masks, numMaskBits, k);
      if NoShadowing(port, m.0, m.1) {
        MergeOk(port, x, gs, masks, dests, numMaskBits, done, k);
      } else {
        RollbackOk(port, x, gs, masks, dests, numMaskBits, done, k);
        NewGroupOk(port, x, gs, UpdatedMasks(port, gs[k], m.1, numMaskBits), dests, numMaskBits, done);
      }
    } else {
      NewGroupOk(port, x, gs, masks, dests, numMaskBits, done);
    }
  }

  // ---- the whole work list

  /** Only masks of `port` were added or changed, none was dropped. */
  ghost predicate Extends(masks: Masks, masks': Masks, port: PhysPort)
  {
    && (forall key :: key in masks ==> key in masks')
    && (forall key :: key in masks' && key.physPort != port ==> key in masks && masks'[key] == masks[key])
  }

  /** Bookkeeping that holds for any work list: rules can be looked up, other ports are untouched. */
  lemma AddIdKeeps(port: PhysPort, x: Id, gs: seq<Group>, masks: Masks, dests: Dests, numMaskBits: nat)
    requires PhysPortAndID(port, x) in dests && InDests(port, gs, dests) && HaveMasks(port, gs, masks)
    ensures var r := AddId(port, x, gs, masks, dests, numMaskBits);
            InDests(port, r.0, dests) && HaveMasks(port, r.0, r.1) && Extends(masks, r.1, port)
  {
    hide NoShadowing, InDests, HaveMasks, Extends, SortGroups, UpdatedMasks, InsertId, NewGroup, FirstMatch;
    var k := FirstMatch(port, x, gs, dests, 0);
    if k < |gs| {
      MergedMasks(port, x, gs, masks, numMaskBits, k);
      MergedDests(port, x, gs, masks, dests, numMaskBits, k);
      var m1 := Merged(port, x, gs, masks, numMaskBits, k).1;
      UpdateExtends(port, InsertId(gs[k], x), masks, masks, numMaskBits);
      UpdateExtends(port, gs[k], masks, m1, numMaskBits);
      NewGroupKeeps(port, x, gs, masks, UpdatedMasks(port, gs[k], m1, numMaskBits), dests, numMaskBits);
    } else {
      ExtendsSelf(masks, port);
      NewGroupKeeps(port, x, gs, masks, masks, dests, numMaskBits);
    }
  }

  lemma ExtendsSelf(masks: Masks, port: PhysPort)
    ensures Extends(masks, masks, port)
  {
  }

  lemma UpdateExtends(port: PhysPort, g: Group, masks: Masks, m: Masks, numMaskBits: nat)
    requires m == masks || Extends(masks, m, port)
    ensures Extends(masks, UpdatedMasks(port, g, m, numMaskBits), port)
  {
  }

  lemma NewGroupKeeps(port: PhysPort, x: Id, gs: seq<Group>, masks: Masks, m: Masks, dests: Dests, numMaskBits: nat)
    requires PhysPortAndID(port, x) in dests && InDests(port, gs, dests) && HaveMasks(port, gs, masks)
    requires Extends(masks, m, port)
    ensures var r := NewGroup(port, x, gs, m, numMaskBits);
            InDests(port, r.0, dests) && HaveMasks(port, r.0, r.1) && Extends(masks, r.1, port)
  {
    hide SortGroups;
    var m' := UpdatedMasks(port, [x], m, numMaskBits);
    assert x in [x] && HaveMasks(port, gs, m') && PhysPortAndID(port, x) in m';
    NewGroupLookups(port, x, gs, dests);
  }

  lemma MergedDests(port: PhysPort, x: Id, gs: seq<Group>, masks: Masks, dests: Dests, numMaskBits: nat, k: nat)
    requires InDests(port, gs, dests) && k < |gs| && PhysPortAndID(port, x) in dests
    ensures InDests(port, Merged(port, x, gs, masks, numMaskBits, k).0, dests)
  {
    var group := InsertId(gs[k], x);
    var gs1 := gs[k := group];
    InsertFirst(gs[k], x);
    SortMembers(gs1);
    var r := SortGroups(gs1);
    forall i | 0 <= i < |r|
      ensures r[i] != [] && PhysPortAndID(port, r[i][0]) in dests
    {
      assert r[i] in r && r[i] in gs1;
    }
  }

  lemma NewGroupLookups(port: PhysPort, x: Id, gs: seq<Group>, dests: Dests)
    requires InDests(port, gs, dests) && PhysPortAndID(port, x) in dests
    ensures InDests(port, SortGroups(gs + [[x]]), dests)
    ensures forall masks: Masks :: HaveMasks(port, gs, masks) && PhysPortAndID(port, x) in masks ==>
              HaveMasks(port, SortGroups(gs + [[x]]), masks)
  {
    var gs1 := gs + [[x]];
    var r := SortGroups(gs1);
    SortMembers(gs1);
    forall i | 0 <= i < |r|
      ensures r[i] == [x] || exists j :: 0 <= j < |gs| && gs[j] == r[i]
    {
      assert r[i] in r && r[i] in gs1;
    }
  }

  ghost predicate Usable(e: Emitted, dests: Dests)
  {
    forall p :: p in e.groups ==> InDests(p, e.groups[p], dests) && HaveMasks(p, e.groups[p], e.masks)
  }

  ghost function GroupsAt(e: Emitted, p: PhysPort): (gs: seq<Group>)
  {
    if p in e.groups then e.groups[p] else []
  }

  /** The configuration after a prefix of the work list. */
  ghost function Emission(workList: seq<PhysPortAndID>, dests: Dests, numMaskBits: nat): (e: Emitted)
    requires forall k :: 0 <= k < |workList| ==> workList[k] in dests
    ensures Usable(e, dests)
  {
    if workList == [] then Emitted(map[], map[])
    else
      var n := |workList| - 1;
      var e := Emission(workList[..n], dests, numMaskBits);
      AddEntry(e, workList[n], dests, numMaskBits)
  }

  ghost function AddEntry(e: Emitted, slave: PhysPortAndID, dests: Dests, numMaskBits: nat): (r: Emitted)
    requires Usable(e, dests) && slave in dests
    ensures Usable(r, dests)
  {
    var gs := GroupsAt(e, slave.physPort);
    var added := AddId(slave.physPort, slave.id, gs, e.masks, dests, numMaskBits);
    AddIdKeeps(slave.physPort, slave.id, gs, e.masks, dests, numMaskBits);
    Emitted(e.groups[slave.physPort := added.0], added.1)
  }

  method EmitSlaveGroupsAndMasks(workList: seq<PhysPortAndID>, dests: Dests, numMaskBits: nat)
    returns (groups: map<PhysPort, seq<Group>>, masks: Masks)
    requires forall k :: 0 <= k < |workList| ==> workList[k] in dests
    ensures Emitted(groups, masks) == Emission(workList, dests, numMaskBits)
  {
    groups, masks := map[], map[];
    for k := 0 to |workList|
      invariant Emitted(groups, masks) == Emission(workList[..k], dests, numMaskBits)
    {
      hide AddId, AddEntry, Usable;
      assert workList[..k + 1][..k] == workList[..k];
      var slave := workList[k];
      var gs := if slave.physPort in groups then groups[slave.physPort] else [];
      EntryUsable(Emitted(groups, masks), slave, dests, numMaskBits);
      gs, masks := AddSlave(slave.physPort, slave.id, gs, masks, dests, numMaskBits);
      groups := groups[slave.physPort := gs];
    }
    assert workList[..|workList|] == workList;
  }

  lemma EntryUsable(e: Emitted, slave: PhysPortAndID, dests: Dests, numMaskBits: nat)
    requires Usable(e, dests) && slave in dests
    ensures var gs := GroupsAt(e, slave.physPort);
            && InDests(slave.physPort, gs, dests) && HaveMasks(slave.physPort, gs, e.masks)
            && AddEntry(e, slave, dests, numMaskBits) ==
               (var added := AddId(slave.physPort, slave.id, gs, e.masks, dests, numMaskBits);
                Emitted(e.groups[slave.physPort := added.0], added.1))
  {
  }

  function IdsAt(workList: seq<PhysPortAndID>, p: PhysPort): (ids: set<Id>)
  {
    set k | 0 <= k < |workList| && workList[k].physPort == p :: workList[k].id
  }

  lemma IdsAtNext(workList: seq<PhysPortAndID>, p: PhysPort)
    requires workList != []
    ensures var n := |workList| - 1;
            IdsAt(workList, p) == IdsAt(workList[..n], p) + (if workList[n].physPort == p then {workList[n].id} else {})
  {
    var n := |workList| - 1;
    var ids, before := IdsAt(workList, p), IdsAt(workList[..n], p);
    forall x | x in before
      ensures x in ids
    {
      var k :| 0 <= k < n && workList[..n][k].physPort == p && workList[..n][k].id == x;
      assert workList[k].physPort == p && workList[k].id == x;
    }
    forall x | x in ids
      ensures x in before || (workList[n].physPort == p && workList[n].id == x)
    {
      var k :| 0 <= k < |workList| && workList[k].physPort == p && workList[k].id == x;
      if k < n {
        assert workList[..n][k].physPort == p && workList[..n][k].id == x;
      }
    }
  }

  /** Another port's entry changes neither this port's groups nor its masks. */
  lemma OtherPort(p: PhysPort, gs: seq<Group>, masks: Masks, masks': Masks, dests: Dests, numMaskBits: nat,
                  done: set<Id>)
    requires PortOk(p, gs, masks, dests, numMaskBits, done)
    requires forall key :: key in masks ==> key in masks'
    requires forall key :: key in masks' && key.physPort == p ==> key in masks && masks'[key] == masks[key]
    ensures PortOk(p, gs, masks', dests, numMaskBits, done)
  {
    hide Sorted, NoDup, NotMatched, Disjoint;
    forall g | g in gs
      ensures GroupOk(p, g, masks', dests, numMaskBits)
    {
      forall x | x in g ensures IdOk(p, x, g, masks', dests, numMaskBits) {
        assert IdOk(p, x, g, masks, dests, numMaskBits);
      }
    }
  }

  lemma EmptyPort(p: PhysPort, dests: Dests, numMaskBits: nat)
    ensures PortOk(p, [], map[], dests, numMaskBits, {})
  {
  }

  lemma FreshId(workList: seq<PhysPortAndID>, p: PhysPort)
    requires NoDup(workList) && workList != [] && workList[|workList| - 1].physPort == p
    ensures workList[|workList| - 1].id !in IdsAt(workList[..|workList| - 1], p)
  {
  }

  // ---- what the rules mean

  /** The rule the hardware applies: the first one that matches, from index `i`. */
  ghost function FirstRule(port: PhysPort, gs: seq<Group>, masks: Masks, x: Id, i: nat): (r: Option<nat>)
    requires HaveMasks(port, gs, masks) && i <= |gs|
    decreases |gs| - i
  {
    if i == |gs| then None
    else if RuleMatches(port, gs[i], masks, x) then Some(i)
    else FirstRule(port, gs, masks, x, i + 1)
  }

  /** A declared ID is caught by the rule of its own group, never by an earlier one. */
  lemma {:induction false} OwnRuleFirst(port: PhysPort, gs: seq<Group>, masks: Masks, dests: Dests, numMaskBits: nat,
                                        done: set<Id>, x: Id, i: nat, own: nat)
    requires PortOk(port, gs, masks, dests, numMaskBits, done) && HaveMasks(port, gs, masks)
    requires i <= own < |gs| && x in gs[own]
    ensures FirstRule(port, gs, masks, x, i) == Some(own)
    decreases own - i
  {
    assert gs[i] in gs && gs[own] in gs;
    assert GroupOk(port, gs[i], masks, dests, numMaskBits);
    assert IdOk(port, gs[i][0], gs[i], masks, dests, numMaskBits);
    if i == own {
      MemberMatches(gs[own], numMaskBits, x);
    } else {
      assert gs[i] != gs[own];
      LessTotal(gs[i], gs[own]);
      assert NotMatched(gs[i], gs[own], numMaskBits);
      OwnRuleFirst(port, gs, masks, dests, numMaskBits, done, x, i + 1, own);
    }
  }
}
