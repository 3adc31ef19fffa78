/**
 * One repeated entry on a port in order.
 *
 * The pass that builds the work list appends one entry per switch connection, so a broadcast ID
 * appears once per destination. Meeting an ID again changes nothing when the first group with its
 * destinations is its own group. Otherwise the merge is always rejected and a singleton is added.
 */
module PacketGroupsRepeat {
  import opened PacketTypes
  import opened PacketGroups
  import opened PacketGroupsProof

  /** The groups' stored masks are their own, and in list order no rule shadows a later group. */
  lemma PortVerified(port: PhysPort, gs: seq<Group>, masks: Masks, dests: Dests, numMaskBits: nat, done: set<Id>)
    requires PortOk(port, gs, masks, dests, numMaskBits, done)
    ensures HaveMasks(port, gs, masks) && NoShadowing(port, gs, masks)
  {
    forall i | 0 <= i < |gs|
      ensures gs[i] != [] && PhysPortAndID(port, gs[i][0]) in masks
      ensures masks[PhysPortAndID(port, gs[i][0])] == GroupMask(gs[i], numMaskBits)
    {
      assert gs[i] in gs && gs[i][0] in gs[i];
      assert IdOk(port, gs[i][0], gs[i], masks, dests, numMaskBits);
    }
    forall i, j, x | 0 <= i < j < |gs| && x in gs[j]
      ensures !RuleMatches(port, gs[i], masks, x)
    {
      LessTotal(gs[i], gs[j]);
      assert gs[i] in gs && gs[j] in gs && gs[i] != gs[j] && !GroupLess(gs[j], gs[i]);
      assert NotMatched(gs[i], gs[j], numMaskBits);
    }
  }

  /** Meeting an ID again whose own group is the first with its destinations changes nothing. */
  lemma RepeatHarmless(port: PhysPort, x: Id, gs: seq<Group>, masks: Masks, dests: Dests, numMaskBits: nat,
                       done: set<Id>, own: nat)
    requires PortOk(port, gs, masks, dests, numMaskBits, done) && InDests(port, gs, dests) && HaveMasks(port, gs, masks)
    requires own < |gs| && x in gs[own] && PhysPortAndID(port, x) in dests
    requires FirstMatch(port, x, gs, dests, 0) == own
    ensures AddId(port, x, gs, masks, dests, numMaskBits) == (gs, masks)
  {
    assert gs[own] in gs;
    OwnMasks(port, gs[own], masks, dests, numMaskBits);
    InsertAscending(gs[own], x);
    SortSorted(gs);
    SortedUnique(SortGroups(gs), gs);
    PortVerified(port, gs, masks, dests, numMaskBits, done);
    assert gs[own := gs[own]] == gs;
    hide PortOk, GroupOk, NoShadowing, HaveMasks, InDests, SortGroups;
    hide Sorted, UpdatedMasks, InsertId, Ascending, FirstMatch;
  }

  lemma OwnMasks(port: PhysPort, g: Group, masks: Masks, dests: Dests, numMaskBits: nat)
    requires GroupOk(port, g, masks, dests, numMaskBits)
    ensures UpdatedMasks(port, g, masks, numMaskBits) == masks
  {
    forall x | x in g
      ensures PhysPortAndID(port, x) in masks && masks[PhysPortAndID(port, x)] == GroupMask(g, numMaskBits)
    {
      assert IdOk(port, x, g, masks, dests, numMaskBits);
    }
  }

  /** Two groups that share an ID cannot both be on a list that verifies. */
  lemma SharedIdShadows(port: PhysPort, gs: seq<Group>, masks: Masks, a: Group, b: Group, x: Id)
    requires HaveMasks(port, gs, masks) && a in gs && b in gs && a != b && x in a && x in b
    requires a != [] && b != [] && PhysPortAndID(port, a[0]) in masks && PhysPortAndID(port, b[0]) in masks
    requires RuleMatches(port, a, masks, x) && RuleMatches(port, b, masks, x)
    ensures !NoShadowing(port, gs, masks)
  {
    var i :| 0 <= i < |gs| && gs[i] == a;
    var j :| 0 <= j < |gs| && gs[j] == b;
    hide RuleMatches;
    if i < j {
      assert x in gs[j] && RuleMatches(port, gs[i], masks, x);
    } else {
      assert x in gs[i] && RuleMatches(port, gs[j], masks, x);
    }
  }

  /** A repeated ID whose first matching group is another one: the merge is always rejected. */
  lemma RepeatRejected(port: PhysPort, x: Id, gs: seq<Group>, masks: Masks, dests: Dests, numMaskBits: nat,
                       done: set<Id>,
                       own: nat, k: nat)
    requires PortOk(port, gs, masks, dests, numMaskBits, done) && k < |gs| && own < |gs| && k != own && x in gs[own]
    ensures var m := Merged(port, x, gs, masks, numMaskBits, k);
            HaveMasks(port, m.0, m.1) && !NoShadowing(port, m.0, m.1)
  {
    var a, b := gs[own], InsertId(gs[k], x);
    var gs1 := gs[k := b];
    var m := Merged(port, x, gs, masks, numMaskBits, k);
    PortVerified(port, gs, masks, dests, numMaskBits, done);
    MergedMasks(port, x, gs, masks, numMaskBits, k);
    assert a in gs && gs[k] in gs && a != gs[k];
    assert Disjoint(a, gs[k]) && Disjoint(gs[k], a) && GroupOk(port, a, masks, dests, numMaskBits);
    assert GroupOk(port, gs[k], masks, dests, numMaskBits) && gs[k][0] in b && gs[k][0] !in a;
    assert gs1[own] == a && gs1[k] == b;
    SortMembers(gs1);
    hide PortOk, GroupOk, NoShadowing, HaveMasks, SortGroups, Disjoint, InsertId;
    RepeatMatches(port, x, a, b, gs[k], masks, dests, numMaskBits);
    SharedIdShadows(port, m.0, m.1, a, b, x);
  }

  lemma RepeatMatches(port: PhysPort, x: Id, a: Group, b: Group, other: Group, masks: Masks, dests: Dests,
                      numMaskBits: nat)
    requires GroupOk(port, a, masks, dests, numMaskBits) && Disjoint(a, other) && x in a && b == InsertId(other, x)
    ensures var m := UpdatedMasks(port, b, masks, numMaskBits);
            && a != [] && b != [] && PhysPortAndID(port, a[0]) in m && PhysPortAndID(port, b[0]) in m
            && RuleMatches(port, a, m, x) && RuleMatches(port, b, m, x)
  {
    assert IdOk(port, a[0], a, masks, dests, numMaskBits);
    MemberMatches(a, numMaskBits, x);
    MemberMatches(b, numMaskBits, x);
    assert b[0] in b && a[0] in a;
  }

  lemma RepeatResult(port: PhysPort, x: Id, gs: seq<Group>, masks: Masks, dests: Dests, numMaskBits: nat, done: set<Id>,
                     own: nat)
    requires PortOk(port, gs, masks, dests, numMaskBits, done) && InDests(port, gs, dests) && HaveMasks(port, gs, masks)
    requires own < |gs| && x in gs[own] && PhysPortAndID(port, x) in dests
    requires FirstMatch(port, x, gs, dests, 0) < |gs| && FirstMatch(port, x, gs, dests, 0) != own
    ensures var k := FirstMatch(port, x, gs, dests, 0);
            var m1 := UpdatedMasks(port, InsertId(gs[k], x), masks, numMaskBits);
            AddId(port, x, gs, masks, dests, numMaskBits) ==
            NewGroup(port, x, gs, UpdatedMasks(port, gs[k], m1, numMaskBits), numMaskBits)
  {
    hide PortOk, InDests, HaveMasks, NoShadowing, FirstMatch, NewGroup, UpdatedMasks, InsertId;
    RepeatRejected(port, x, gs, masks, dests, numMaskBits, done, own, FirstMatch(port, x, gs, dests, 0));
  }
}
