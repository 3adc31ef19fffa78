/**
 * Two work lists as the caller builds them, each ID once per destination port, on which emission goes
 * wrong: on one a declared packet is dropped, on the other it is delivered to another packet's ports.
 */
module PacketGroupsExamples {
  import opened Common
  import opened PacketTypes
  import opened PacketGroups
  import opened PacketGroupsProof
  import opened PacketGroupsRepeat
  import opened PacketGroupsLate
  import opened PacketGroupsRuns

  const P := PhysPort(TileLoc(0, 0), Port(0, 0), SRC)
  const EAST := PhysPort(TileLoc(0, 0), Port(1, 0), DST)
  const NORTH := PhysPort(TileLoc(0, 0), Port(2, 0), DST)
  const WEST := PhysPort(TileLoc(0, 0), Port(3, 0), DST)

  function K(id: Id): (k: PhysPortAndID)
  {
    PhysPortAndID(P, id)
  }

  const DECLARED: Dests :=
    map[K(0) := {EAST, NORTH}, K(1) := {EAST, NORTH}, K(3) := {EAST, NORTH}, K(4) := {EAST, NORTH},
        K(2) := {WEST}, K(5) := {WEST}, K(7) := {WEST}]

  lemma Lookups()
    ensures forall x :: x in {0, 1, 3, 4} ==> K(x) in DECLARED && DECLARED[K(x)] == {EAST, NORTH}
    ensures forall x :: x in {2, 5, 7} ==> K(x) in DECLARED && DECLARED[K(x)] == {WEST}
    ensures {EAST, NORTH} != {WEST}
  {
    assert EAST in {EAST, NORTH} && EAST !in {WEST};
  }

  /** Every listed ID is there once per destination port. */
  ghost predicate OncePerPort(w: seq<PhysPortAndID>)
  {
    forall k :: k in w ==> k in DECLARED && multiset(w)[k] == |DECLARED[k]|
  }

  /** The mask stored for ID `x` is that of group `g`. */
  ghost predicate Has(m: Masks, x: Id, g: Group)
  {
    MaskIs(P, m, x, g, 3)
  }

  // ---- bits

  lemma Bits()
    ensures !Bit(0, 0) && !Bit(0, 1) && !Bit(0, 2) && Bit(1, 0) && !Bit(1, 1) && !Bit(1, 2)
    ensures !Bit(2, 0) && Bit(2, 1) && !Bit(2, 2) && Bit(3, 0) && Bit(3, 1) && !Bit(3, 2)
    ensures !Bit(4, 0) && !Bit(4, 1) && Bit(4, 2) && Bit(5, 0) && !Bit(5, 1) && Bit(5, 2)
    ensures Bit(7, 0) && Bit(7, 1) && Bit(7, 2)
  {
    assert Bit(1, 1) == Bit(0, 0) && Bit(2, 1) == Bit(1, 0) && Bit(3, 1) == Bit(1, 0) && Bit(4, 1) == Bit(2, 0);
    assert Bit(5, 1) == Bit(2, 0) && Bit(7, 1) == Bit(3, 0);
    assert Bit(0, 2) == Bit(0, 1) && Bit(1, 2) == Bit(0, 1) && Bit(2, 2) == Bit(1, 1) && Bit(3, 2) == Bit(1, 1);
    assert Bit(4, 2) == Bit(2, 1) && Bit(5, 2) == Bit(2, 1) && Bit(7, 2) == Bit(3, 1);
  }

  lemma PairMask(a: Id, b: Id, i: nat)
    requires i < 3
    ensures i in GroupMask([a, b], 3) <==> Bit(a, i) == Bit(b, i)
  {
    assert [a, b][0] == a && [a, b][1] == b;
  }

  lemma NoMask(m: nat)
    ensures m !in GroupMask([2, 5], 3)
    ensures m in GroupMask([2, 7], 3) ==> m == 1
  {
    Bits();
    if m < 3 {
      PairMask(2, 5, m);
      PairMask(2, 7, m);
      assert m == 0 || m == 1 || m == 2;
    }
  }

  lemma Eight()
    ensures Pow2(3) == 8
  {
    assert Pow2(2) == 4;
  }

  // ---- one entry

  /** An entry whose destinations no group has. */
  lemma NoMatch(x: Id, gs: seq<Group>, masks: Masks)
    requires K(x) in DECLARED && InDests(P, gs, DECLARED) && HaveMasks(P, gs, masks)
    requires forall i :: 0 <= i < |gs| ==> DECLARED[K(gs[i][0])] != DECLARED[K(x)]
    ensures AddId(P, x, gs, masks, DECLARED, 3).0 == SortGroups(gs + [[x]])
  {
    hide SortGroups, UpdatedMasks;
  }

  /** An entry with the destinations of the first group. */
  lemma FirstGroup(x: Id, gs: seq<Group>, masks: Masks)
    requires K(x) in DECLARED && InDests(P, gs, DECLARED) && HaveMasks(P, gs, masks)
    requires gs != [] && DECLARED[K(gs[0][0])] == DECLARED[K(x)]
    ensures FirstMatch(P, x, gs, DECLARED, 0) == 0
    ensures var m := Merged(P, x, gs, masks, 3, 0);
            && HaveMasks(P, m.0, m.1)
            && AddId(P, x, gs, masks, DECLARED, 3).0 == if NoShadowing(P, m.0, m.1) then m.0 else SortGroups(gs + [[x]])
  {
    MergedMasks(P, x, gs, masks, 3, 0);
    hide NoShadowing, HaveMasks, Merged, UpdatedMasks, SortGroups;
  }

  /** A sorted rearrangement is the result of sorting. */
  lemma SortIs(gs: seq<Group>, r: seq<Group>)
    requires Sorted(r) && multiset(r) == multiset(gs)
    ensures SortGroups(gs) == r
  {
    SortSorted(gs);
    SortedUnique(SortGroups(gs), r);
  }

  /** Sorting a list of two. */
  lemma SortTwo(a: Group, b: Group)
    requires GroupLess(a, b)
    ensures SortGroups([a, b]) == [a, b] && SortGroups([b, a]) == [a, b]
  {
    LessTotal(a, b);
    hide GroupLess;
    assert multiset([a, b]) == multiset([b, a]);
    SortIs([a, b], [a, b]);
    SortIs([b, a], [a, b]);
  }

  /** New groups before groups that are not smaller. */
  lemma SortFront(gs: seq<Group>, front: seq<Group>)
    requires Sorted(front + gs)
    ensures SortGroups(gs + front) == front + gs
  {
    SortIs(gs + front, front + gs);
  }

  // ---- states along a list

  /** The port is in order after `w`, with groups `gs`. */
  ghost predicate State(w: seq<PhysPortAndID>, gs: seq<Group>)
  {
    && ListOk(w, DECLARED, 3) && InOrder(w, DECLARED, 3, P)
    && GroupsAt(After(w, DECLARED, 3), P) == gs
  }

  ghost function MasksOf(w: seq<PhysPortAndID>): (m: Masks)
    requires ListOk(w, DECLARED, 3)
  {
    After(w, DECLARED, 3).masks
  }

  lemma Facts(w: seq<PhysPortAndID>, gs: seq<Group>)
    requires State(w, gs)
    ensures InDests(P, gs, DECLARED) && HaveMasks(P, gs, MasksOf(w))
    ensures PortOk(P, gs, MasksOf(w), DECLARED, 3, IdsAt(w, P))
    ensures forall g, x :: g in gs && x in g ==> Has(MasksOf(w), x, g)
  {
    hide PortOk;
    InDestsAt(w, DECLARED, 3, P);
    forall g, x | g in gs && x in g
      ensures Has(MasksOf(w), x, g)
    {
      GroupExact(P, gs, MasksOf(w), DECLARED, 3, IdsAt(w, P), g);
    }
  }

  /** One more entry that keeps the port in order. */
  lemma Advance(w: seq<PhysPortAndID>, x: Id, gs: seq<Group>, gs': seq<Group>)
    requires State(w, gs) && K(x) in DECLARED && x < 8 && InDests(P, gs, DECLARED) && HaveMasks(P, gs, MasksOf(w))
    requires (forall g :: g in gs ==> x !in g) || (gs != [] && x in gs[0] && DECLARED[K(gs[0][0])] == DECLARED[K(x)])
    requires AddId(P, x, gs, MasksOf(w), DECLARED, 3).0 == gs'
    ensures State(w + [K(x)], gs')
  {
    hide AddId;
    Eight();
    var w' := w + [K(x)];
    assert w'[..|w|] == w && w'[|w|] == K(x) && ListOk(w', DECLARED, 3);
    Known(w, gs, x);
    assert KeepsOrder(w, K(x), DECLARED, 3) by {
      if gs != [] && x in gs[0] && DECLARED[K(gs[0][0])] == DECLARED[K(x)] {
        FirstGroup(x, gs, MasksOf(w));
      }
    }
    hide KeepsOrder, InOrder, ListOk, After;
    InOrderNext(w', DECLARED, 3, P);
    NextEmission(w', DECLARED, 3, P);
  }

  lemma Known(w: seq<PhysPortAndID>, gs: seq<Group>, x: Id)
    requires State(w, gs)
    ensures x in IdsAt(w, P) ==> exists g :: g in gs && x in g
  {
  }

  /** An ID met again in the first group. */
  lemma Again(w: seq<PhysPortAndID>, x: Id, gs: seq<Group>)
    requires State(w, gs) && K(x) in DECLARED && x < 8 && gs != [] && x in gs[0] && gs[0] != []
    requires K(gs[0][0]) in DECLARED && DECLARED[K(gs[0][0])] == DECLARED[K(x)]
    ensures State(w + [K(x)], gs)
  {
    Facts(w, gs);
    hide State, PortOk, InDests, HaveMasks, AddId;
    FirstGroup(x, gs, MasksOf(w));
    RepeatHarmless(P, x, gs, MasksOf(w), DECLARED, 3, IdsAt(w, P), 0);
    Advance(w, x, gs, gs);
  }

  lemma Nothing()
    ensures State([], [])
  {
    EmptyInOrder(DECLARED, 3, P);
  }

  // ---- a dropped packet: 0, 1, 1, 2, 7, 3, 3, 0

  const DROPS := [K(0), K(1), K(1), K(2), K(7), K(3), K(3)]

  lemma Merge1(masks: Masks)
    requires HaveMasks(P, [[0]], masks)
    ensures AddId(P, 1, [[0]], masks, DECLARED, 3).0 == [[0, 1]]
  {
    hide AddId, UpdatedMasks;
    FirstGroup(1, [[0]], masks);
    assert InsertId([0], 1) == [0, 1];
    assert [[0]][0 := [0, 1]] == [[0, 1]];
    SortIs([[0, 1]], [[0, 1]]);
  }

  /** Two groups, of which `x` may go into the first: the merged list has two groups again. */
  lemma TwoGroups(x: Id, a: Group, b: Group, e: Group, r: seq<Group>, masks: Masks)
    requires K(x) in DECLARED && InDests(P, [a, b], DECLARED) && HaveMasks(P, [a, b], masks)
    requires a != [] && K(a[0]) in DECLARED && DECLARED[K(a[0])] == DECLARED[K(x)]
    requires e == InsertId(a, x) && SortGroups([e, b]) == r
    ensures var m := UpdatedMasks(P, e, masks, 3);
            HaveMasks(P, r, m) &&
            AddId(P, x, [a, b], masks, DECLARED, 3).0 == if NoShadowing(P, r, m) then r else SortGroups([a, b] + [[x]])
  {
    hide AddId, NoShadowing, HaveMasks, UpdatedMasks, SortGroups, InsertId;
    FirstGroup(x, [a, b], masks);
    assert [a, b][0 := e] == [e, b];
  }

  /** A group the merge does not touch keeps its mask. */
  lemma KeepsMask(masks: Masks, e: Group, x: Id, g: Group)
    requires Has(masks, x, g) && x !in e
    ensures Has(UpdatedMasks(P, e, masks, 3), x, g)
  {
  }

  lemma Merge7(masks: Masks)
    requires HaveMasks(P, [[2], [0, 1]], masks) && Has(masks, 0, [0, 1])
    ensures AddId(P, 7, [[2], [0, 1]], masks, DECLARED, 3).0 == [[0, 1], [2, 7]]
  {
    assert InDests(P, [[2], [0, 1]], DECLARED);
    hide AddId, NoShadowing, SortGroups, InsertId, HaveMasks, UpdatedMasks, InDests, Has;
    Insert(2, 7);
    SortTwo([0, 1], [2, 7]);
    TwoGroups(7, [2], [0, 1], [2, 7], [[0, 1], [2, 7]], masks);
    KeepsMask(masks, [2, 7], 0, [0, 1]);
    Clear01(UpdatedMasks(P, [2, 7], masks, 3));
  }

  lemma Insert(a: Id, b: Id)
    requires a < b
    ensures InsertId([a], b) == [a, b] && InsertId([b], a) == [a, b]
  {
  }

  lemma Clear01(m: Masks)
    requires HaveMasks(P, [[0, 1], [2, 7]], m) && Has(m, 0, [0, 1])
    ensures NoShadowing(P, [[0, 1], [2, 7]], m)
  {
    Bits();
    PairMask(0, 1, 1);
    hide GroupMask;
    var gs := [[0, 1], [2, 7]];
    forall i, j, x | 0 <= i < j < |gs| && x in gs[j]
      ensures !RuleMatches(P, gs[i], m, x)
    {
      assert i == 0 && (x == 2 || x == 7);
    }
  }

  /** The merge into the first of two groups is refused. */
  lemma RefuseFirst(x: Id, a: Group, b: Group, e: Group, masks: Masks)
    requires K(x) in DECLARED && InDests(P, [a, b], DECLARED) && HaveMasks(P, [a, b], masks)
    requires a != [] && K(a[0]) in DECLARED && DECLARED[K(a[0])] == DECLARED[K(x)]
    requires e == InsertId(a, x) && |a| == |b| == 2 && GroupLess(a, b) && GroupLess(b, e)
    requires var m := UpdatedMasks(P, e, masks, 3); HaveMasks(P, [b, e], m) ==> !NoShadowing(P, [b, e], m)
    ensures AddId(P, x, [a, b], masks, DECLARED, 3).0 == [[x], a, b]
  {
    hide AddId, NoShadowing, SortGroups, InsertId, HaveMasks, UpdatedMasks, InDests, GroupLess, Sorted, DECLARED;
    SortTwo(b, e);
    TwoGroups(x, a, b, e, [b, e], masks);
    SortThree(a, b, x);
  }

  lemma Refuse3(masks: Masks)
    requires HaveMasks(P, [[0, 1], [2, 7]], masks) && Has(masks, 2, [2, 7])
    ensures AddId(P, 3, [[0, 1], [2, 7]], masks, DECLARED, 3).0 == [[3], [0, 1], [2, 7]]
  {
    Lookups();
    assert InDests(P, [[0, 1], [2, 7]], DECLARED);
    hide DECLARED, EAST, NORTH, WEST;
    Orders();
    hide AddId, NoShadowing, SortGroups, InsertId, HaveMasks, UpdatedMasks, InDests, Has, GroupLess;
    Insert3();
    KeepsMask(masks, [0, 1, 3], 2, [2, 7]);
    var m := UpdatedMasks(P, [0, 1, 3], masks, 3);
    if HaveMasks(P, [[2, 7], [0, 1, 3]], m) {
      Clash3(m);
    }
    RefuseFirst(3, [0, 1], [2, 7], [0, 1, 3], masks);
  }

  lemma Orders()
    ensures GroupLess([0, 1], [2, 7]) && GroupLess([2, 7], [0, 1, 3])
    ensures GroupLess([1, 3], [2, 5]) && GroupLess([2, 5], [1, 3, 4])
  {
  }

  lemma SortThree(a: Group, b: Group, x: Id)
    requires |a| == 2 && |b| == 2 && GroupLess(a, b)
    ensures SortGroups([a, b] + [[x]]) == [[x], a, b]
  {
    LessTotal(a, b);
    hide LexLess;
    assert Sorted([[x]] + [a, b]);
    SortFront([a, b], [[x]]);
    assert [[x]] + [a, b] == [[x], a, b];
  }

  lemma Insert3()
    ensures InsertId([0, 1], 3) == [0, 1, 3]
  {
    assert [0, 1][1..] == [1];
    Insert(1, 3);
  }

  lemma Clash3(m: Masks)
    requires HaveMasks(P, [[2, 7], [0, 1, 3]], m) && Has(m, 2, [2, 7])
    ensures !NoShadowing(P, [[2, 7], [0, 1, 3]], m)
  {
    Bits();
    var gs := [[2, 7], [0, 1, 3]];
    forall i | i in GroupMask([2, 7], 3)
      ensures i == 1
    {
      NoMask(i);
    }
    hide GroupMask;
    assert 3 in gs[1] && RuleMatches(P, gs[0], m, 3);
  }

  /** The first entry of a list. */
  lemma FirstEntry(x: Id)
    requires K(x) in DECLARED && x < 8
    ensures State([K(x)], [[x]])
  {
    hide State, AddId, HaveMasks, InDests, SortGroups, PortOk, Has;
    Nothing();
    Facts([], []);
    NoMatch(x, [], MasksOf([]));
    assert [] + [[x]] == [[x]] && [] + [K(x)] == [K(x)];
    OneGroup([x]);
    Advance([], x, [], [[x]]);
  }

  lemma OneGroup(g: Group)
    ensures SortGroups([g]) == [g]
  {
    SortIs([g], [g]);
  }

  lemma DropsFirst()
    ensures State([K(0), K(1), K(1)], [[0, 1]])
  {
    hide State, AddId, HaveMasks, InDests, SortGroups, PortOk, Has, GroupMask;
    FirstEntry(0);
    Facts([K(0)], [[0]]);
    Merge1(MasksOf([K(0)]));
    Advance([K(0)], 1, [[0]], [[0, 1]]);
    assert [K(0)] + [K(1)] == [K(0), K(1)] && [K(0), K(1)] + [K(1)] == [K(0), K(1), K(1)];
    Again([K(0), K(1)], 1, [[0, 1]]);
  }

  lemma DropsSecond()
    ensures State([K(0), K(1), K(1), K(2), K(7)], [[0, 1], [2, 7]])
  {
    hide State, AddId, HaveMasks, InDests, SortGroups, PortOk, Has;
    var w := [K(0), K(1), K(1)];
    DropsFirst();
    Facts(w, [[0, 1]]);
    NoMatch(2, [[0, 1]], MasksOf(w));
    assert Sorted([[2]] + [[0, 1]]);
    SortFront([[0, 1]], [[2]]);
    assert [[2]] + [[0, 1]] == [[2], [0, 1]];
    Advance(w, 2, [[0, 1]], [[2], [0, 1]]);
    var v := [K(0), K(1), K(1), K(2)];
    assert w + [K(2)] == v && v + [K(7)] == [K(0), K(1), K(1), K(2), K(7)];
    Facts(v, [[2], [0, 1]]);
    assert [0, 1] in [[2], [0, 1]] && 0 in [0, 1];
    Merge7(MasksOf(v));
    Advance(v, 7, [[2], [0, 1]], [[0, 1], [2, 7]]);
  }

  lemma DropsThird()
    ensures State(DROPS, [[3], [0, 1], [2, 7]])
  {
    hide State, AddId, HaveMasks, InDests, SortGroups, PortOk, Has;
    var w := [K(0), K(1), K(1), K(2), K(7)];
    DropsSecond();
    Facts(w, [[0, 1], [2, 7]]);
    assert [2, 7] in [[0, 1], [2, 7]] && 2 in [2, 7];
    Refuse3(MasksOf(w));
    Advance(w, 3, [[0, 1], [2, 7]], [[3], [0, 1], [2, 7]]);
    var v := [K(0), K(1), K(1), K(2), K(7), K(3)];
    assert w + [K(3)] == v && v + [K(3)] == DROPS;
    Again(v, 3, [[3], [0, 1], [2, 7]]);
  }

  /** Once ID 0 is met again no rule matches ID 1. */
  lemma Unmatched(m: Masks)
    requires HaveMasks(P, [[0], [3], [0, 1], [2, 7]], m)
    requires Has(m, 0, [0]) && Has(m, 3, [3]) && Has(m, 2, [2, 7])
    ensures FirstRule(P, [[0], [3], [0, 1], [2, 7]], m, 1, 0) == None
  {
    Bits();
    Eight();
    SingletonMatches(0, 1, 3);
    SingletonMatches(3, 1, 3);
    PairMask(2, 7, 1);
    hide GroupMask;
    var gs := [[0], [3], [0, 1], [2, 7]];
    assert !RuleMatches(P, gs[0], m, 1) && !RuleMatches(P, gs[1], m, 1);
    assert !RuleMatches(P, gs[2], m, 1) && !RuleMatches(P, gs[3], m, 1);
    hide RuleMatches;
    assert FirstRule(P, gs, m, 1, 3) == None;
    assert FirstRule(P, gs, m, 1, 1) == FirstRule(P, gs, m, 1, 2);
  }

  /** An entry that is not in the first group with its destinations. */
  lemma Lose(w: seq<PhysPortAndID>, x: Id, gs: seq<Group>)
    requires State(w, gs) && K(x) in DECLARED && x < 8 && K(x) in w
    requires gs != [] && gs[0] != [] && K(gs[0][0]) in DECLARED && DECLARED[K(gs[0][0])] == DECLARED[K(x)]
    requires x !in gs[0]
    ensures ListOk(w + [K(x)], DECLARED, 3) && (w + [K(x)])[..|w|] == w && OutOfOrder(w + [K(x)], DECLARED, 3, P, |w|)
    ensures var e := After(w + [K(x)], DECLARED, 3);
            && HaveMasks(P, GroupsAt(e, P), e.masks)
            && Late(P, GroupsAt(e, P), e.masks, gs, [x], 3)
  {
    LosesOrder(w, x, gs);
    ListMore(w, x);
    Facts(w, gs);
    hide AddId, PortOk, Late, Overlapping, Has, InDests, KeepsOrder, InOrder, ListOk, HaveMasks, After;
    var w' := w + [K(x)];
    assert w'[..|w|] == w && w'[|w|] == K(x);
    OrderLost(w', DECLARED, 3, P);
    OneId(w'[|w|..], P);
    InDestsAt(w', DECLARED, 3, P);
  }

  lemma ListMore(w: seq<PhysPortAndID>, x: Id)
    requires ListOk(w, DECLARED, 3) && K(x) in DECLARED && x < 8
    ensures ListOk(w + [K(x)], DECLARED, 3)
  {
    Eight();
    hide DECLARED, Pow2;
  }

  lemma LosesOrder(w: seq<PhysPortAndID>, x: Id, gs: seq<Group>)
    requires State(w, gs) && K(x) in DECLARED && K(x) in w
    requires gs != [] && gs[0] != [] && K(gs[0][0]) in DECLARED && DECLARED[K(gs[0][0])] == DECLARED[K(x)]
    requires x !in gs[0]
    ensures ListOk(w, DECLARED, 3) && !KeepsOrder(w, K(x), DECLARED, 3)
  {
    hide DECLARED, InOrder, ListOk, After, PortOk, HaveMasks, AddId, Merged, SortGroups, NoShadowing, Has;
    Facts(w, gs);
    FirstGroup(x, gs, MasksOf(w));
    Listed(w, x);
  }

  lemma Listed(w: seq<PhysPortAndID>, x: Id)
    requires K(x) in w
    ensures x in IdsAt(w, P)
  {
    var k :| 0 <= k < |w| && w[k] == K(x);
  }

  /** ID 1 is declared and listed for both its ports, yet the emitted rules drop its packets. */
  lemma RepeatedEntryDropsPacket()
    ensures var w := DROPS + [K(0)];
            && ListOk(w, DECLARED, 3) && OncePerPort(w) && K(1) in w
            && var e := After(w, DECLARED, 3);
               && HaveMasks(P, GroupsAt(e, P), e.masks)
               && FirstRule(P, GroupsAt(e, P), e.masks, 1, 0) == None
  {
    hide State, PortOk, HaveMasks, InOrder, OutOfOrder, ListOk, After, GroupMask, FirstRule, SortGroups, MaskIs;
    DropsThird();
    assert DROPS[0] == K(0);
    var gs := [[3], [0, 1], [2, 7]];
    Lose(DROPS, 0, gs);
    var e := After(DROPS + [K(0)], DECLARED, 3);
    LastSort();
    assert gs[0] in gs && gs[2] in gs && 3 in gs[0] && 2 in gs[2];
    Unmatched(e.masks);
    assert (DROPS + [K(0)])[1] == K(1);
    DropsCounts();
  }

  lemma DropsCounts()
    ensures OncePerPort(DROPS + [K(0)])
  {
    var w := DROPS + [K(0)];
    assert w == [K(0), K(1), K(1), K(2), K(7), K(3), K(3), K(0)];
    TwoPorts();
    Lookups();
    hide DECLARED, EAST, NORTH, WEST;
  }

  lemma TwoPorts()
    ensures |{EAST, NORTH}| == 2 && |{WEST}| == 1
  {
  }

  lemma LastSort()
    ensures SortGroups([[3], [0, 1], [2, 7]] + Singles([0])) == [[0], [3], [0, 1], [2, 7]]
  {
    Orders();
    hide GroupLess;
    var gs, r := [[3], [0, 1], [2, 7]], [[0], [3], [0, 1], [2, 7]];
    assert gs + Singles([0]) == gs + [[0]] && r == [[0]] + gs;
    SortedFour(0, 3, [0, 1], [2, 7]);
    SortFront(gs, [[0]]);
  }

  lemma SortedFour(x: Id, y: Id, a: Group, b: Group)
    requires x <= y && |a| == |b| == 2 && GroupLess(a, b)
    ensures Sorted([[x], [y], a, b])
  {
    LessTotal(a, b);
    SingleOrder(x, y);
    hide LexLess;
  }

  lemma SingleOrder(x: Id, y: Id)
    requires x <= y
    ensures !GroupLess([y], [x])
  {
    if x == y {
      LessTotal([x], [x]);
    }
  }

  // ---- a misdelivered packet: 2, 3, 5, 3, 1, 4, 1, 4

  const STRAYS := [K(2), K(3), K(5), K(3), K(1), K(4)]

  lemma Merge5(masks: Masks)
    requires HaveMasks(P, [[2], [3]], masks) && Has(masks, 3, [3])
    ensures AddId(P, 5, [[2], [3]], masks, DECLARED, 3).0 == [[3], [2, 5]]
  {
    assert InDests(P, [[2], [3]], DECLARED);
    hide AddId, NoShadowing, SortGroups, InsertId, HaveMasks, UpdatedMasks, InDests, Has;
    Insert(2, 5);
    SortTwo([3], [2, 5]);
    TwoGroups(5, [2], [3], [2, 5], [[3], [2, 5]], masks);
    KeepsMask(masks, [2, 5], 3, [3]);
    Clear3(UpdatedMasks(P, [2, 5], masks, 3));
  }

  lemma Clear3(m: Masks)
    requires HaveMasks(P, [[3], [2, 5]], m) && Has(m, 3, [3])
    ensures NoShadowing(P, [[3], [2, 5]], m)
  {
    Eight();
    SingletonMatches(3, 2, 3);
    SingletonMatches(3, 5, 3);
    hide GroupMask;
    var gs := [[3], [2, 5]];
    forall i, j, x | 0 <= i < j < |gs| && x in gs[j]
      ensures !RuleMatches(P, gs[i], m, x)
    {
      assert i == 0 && (x == 2 || x == 5);
    }
  }

  lemma Merge13(masks: Masks)
    requires HaveMasks(P, [[3], [2, 5]], masks)
    ensures AddId(P, 1, [[3], [2, 5]], masks, DECLARED, 3).0 == [[1, 3], [2, 5]]
  {
    Lookups();
    assert InDests(P, [[3], [2, 5]], DECLARED);
    hide DECLARED, EAST, NORTH, WEST;
    Orders();
    hide AddId, NoShadowing, SortGroups, InsertId, HaveMasks, InDests, GroupLess;
    Insert(1, 3);
    SortTwo([1, 3], [2, 5]);
    TwoGroups(1, [3], [2, 5], [1, 3], [[1, 3], [2, 5]], masks);
    assert 1 in [1, 3];
    Clear13(UpdatedMasks(P, [1, 3], masks, 3));
  }

  lemma Clear13(m: Masks)
    requires HaveMasks(P, [[1, 3], [2, 5]], m) && Has(m, 1, [1, 3])
    ensures NoShadowing(P, [[1, 3], [2, 5]], m)
  {
    Bits();
    PairMask(1, 3, 0);
    PairMask(1, 3, 2);
    hide GroupMask;
    var gs := [[1, 3], [2, 5]];
    forall i, j, x | 0 <= i < j < |gs| && x in gs[j]
      ensures !RuleMatches(P, gs[i], m, x)
    {
      assert i == 0 && (x == 2 || x == 5);
    }
  }

  lemma Refuse4(masks: Masks)
    requires HaveMasks(P, [[1, 3], [2, 5]], masks) && Has(masks, 2, [2, 5])
    ensures AddId(P, 4, [[1, 3], [2, 5]], masks, DECLARED, 3).0 == [[4], [1, 3], [2, 5]]
  {
    Lookups();
    assert InDests(P, [[1, 3], [2, 5]], DECLARED);
    hide DECLARED, EAST, NORTH, WEST;
    Orders();
    hide AddId, NoShadowing, SortGroups, InsertId, HaveMasks, UpdatedMasks, InDests, Has, GroupLess;
    Insert4();
    KeepsMask(masks, [1, 3, 4], 2, [2, 5]);
    var m := UpdatedMasks(P, [1, 3, 4], masks, 3);
    if HaveMasks(P, [[2, 5], [1, 3, 4]], m) {
      Clash4(m);
    }
    RefuseFirst(4, [1, 3], [2, 5], [1, 3, 4], masks);
  }

  lemma Insert4()
    ensures InsertId([1, 3], 4) == [1, 3, 4]
  {
    assert [1, 3][1..] == [3];
    Insert(3, 4);
  }

  /** The rule of [2, 5] has an empty mask and matches everything. */
  lemma Clash4(m: Masks)
    requires HaveMasks(P, [[2, 5], [1, 3, 4]], m) && Has(m, 2, [2, 5])
    ensures !NoShadowing(P, [[2, 5], [1, 3, 4]], m)
  {
    EmptyMask();
    hide GroupMask;
    var gs := [[2, 5], [1, 3, 4]];
    assert 1 in gs[1] && RuleMatches(P, gs[0], m, 1);
  }

  lemma EmptyMask()
    ensures GroupMask([2, 5], 3) == {}
  {
    forall i
      ensures i !in GroupMask([2, 5], 3)
    {
      if i >= 0 {
        NoMask(i);
      }
    }
  }

  lemma StraysFirst()
    ensures State([K(2), K(3), K(5), K(3)], [[3], [2, 5]])
  {
    hide State, AddId, HaveMasks, InDests, SortGroups, PortOk, Has, GroupMask;
    FirstEntry(2);
    Facts([K(2)], [[2]]);
    NoMatch(3, [[2]], MasksOf([K(2)]));
    assert [[2]] + [[3]] == [[2], [3]];
    SortTwo([2], [3]);
    Advance([K(2)], 3, [[2]], [[2], [3]]);
    var w := [K(2), K(3)];
    assert [K(2)] + [K(3)] == w;
    Facts(w, [[2], [3]]);
    assert [3] in [[2], [3]] && 3 in [3];
    Merge5(MasksOf(w));
    Advance(w, 5, [[2], [3]], [[3], [2, 5]]);
    var v := [K(2), K(3), K(5)];
    assert w + [K(5)] == v && v + [K(3)] == [K(2), K(3), K(5), K(3)];
    Again(v, 3, [[3], [2, 5]]);
  }

  lemma StraysSecond()
    ensures State(STRAYS, [[4], [1, 3], [2, 5]])
  {
    hide State, AddId, HaveMasks, InDests, SortGroups, PortOk, Has, GroupMask;
    var w := [K(2), K(3), K(5), K(3)];
    StraysFirst();
    Facts(w, [[3], [2, 5]]);
    Merge13(MasksOf(w));
    Advance(w, 1, [[3], [2, 5]], [[1, 3], [2, 5]]);
    var v := [K(2), K(3), K(5), K(3), K(1)];
    assert w + [K(1)] == v && v + [K(4)] == STRAYS;
    Facts(v, [[1, 3], [2, 5]]);
    assert [2, 5] in [[1, 3], [2, 5]] && 2 in [2, 5];
    Refuse4(MasksOf(v));
    Advance(v, 4, [[1, 3], [2, 5]], [[4], [1, 3], [2, 5]]);
  }

  lemma Strayed(m: Masks)
    requires HaveMasks(P, [[1], [4], [4], [1, 3], [2, 5]], m)
    requires Has(m, 1, [1]) && Has(m, 4, [4]) && Has(m, 2, [2, 5])
    ensures FirstRule(P, [[1], [4], [4], [1, 3], [2, 5]], m, 3, 0) == Some(4)
  {
    Eight();
    SingletonMatches(1, 3, 3);
    SingletonMatches(4, 3, 3);
    EmptyMask();
    hide GroupMask;
    var gs := [[1], [4], [4], [1, 3], [2, 5]];
    assert !RuleMatches(P, gs[0], m, 3) && !RuleMatches(P, gs[1], m, 3) && !RuleMatches(P, gs[2], m, 3);
    assert !RuleMatches(P, gs[3], m, 3) && RuleMatches(P, gs[4], m, 3);
    hide RuleMatches;
    forall j | 0 <= j < 4
      ensures !RuleMatches(P, gs[j], m, 3)
    {
      assert j == 0 || j == 1 || j == 2 || j == 3;
    }
    FirstRuleIs(P, gs, m, 3, 0, 4);
  }

  /** ID 3 goes east and north, yet its packets are caught by the rule of IDs 2 and 5, which go west. */
  lemma RepeatedEntryMisdelivers()
    ensures var w := STRAYS + [K(1)] + [K(4)];
            && ListOk(w, DECLARED, 3) && OncePerPort(w) && K(3) in w
            && var e := After(w, DECLARED, 3);
               && HaveMasks(P, GroupsAt(e, P), e.masks)
               && var first := FirstRule(P, GroupsAt(e, P), e.masks, 3, 0);
                  && first.Some? && first.value < |GroupsAt(e, P)| && GroupsAt(e, P)[first.value] == [2, 5]
                  && DECLARED[K(2)] == DECLARED[K(5)] != DECLARED[K(3)]
  {
    Lookups();
    hide State, PortOk, HaveMasks, InOrder, OutOfOrder, ListOk, After, GroupMask, FirstRule, SortGroups, MaskIs,
      DECLARED, EAST, NORTH, WEST, OncePerPort;
    StraysSecond();
    assert STRAYS[4] == K(1);
    var gs := [[4], [1, 3], [2, 5]];
    Lose(STRAYS, 1, gs);
    var w := STRAYS + [K(1)];
    assert w[..6] == STRAYS;
    StraysState(gs);
    LoseMore(w, gs);
    StraysSort();
    StrayRule(After(w + [K(4)], DECLARED, 3), gs);
    assert (w + [K(4)])[1] == K(3);
    StraysCounts();
  }

  lemma StraysState(gs: seq<Group>)
    requires State(STRAYS, gs)
    ensures ListOk(STRAYS, DECLARED, 3) && GroupsAt(After(STRAYS, DECLARED, 3), P) == gs
  {
    hide InOrder, ListOk, After;
  }

  lemma StrayRule(e: Emitted, gs: seq<Group>)
    requires gs == [[4], [1, 3], [2, 5]] && HaveMasks(P, GroupsAt(e, P), e.masks)
    requires Late(P, GroupsAt(e, P), e.masks, gs, [1, 4], 3)
    requires SortGroups(gs + Singles([1, 4])) == [[1], [4], [4], [1, 3], [2, 5]]
    ensures GroupsAt(e, P) == [[1], [4], [4], [1, 3], [2, 5]] && FirstRule(P, GroupsAt(e, P), e.masks, 3, 0) == Some(4)
  {
    hide HaveMasks, FirstRule, SortGroups, MaskIs, GroupsAt;
    assert gs[2] in gs && 2 in gs[2] && 1 in [1, 4] && 4 in [1, 4] && 2 !in [1, 4];
    Strayed(e.masks);
  }

  lemma LoseMore(w: seq<PhysPortAndID>, gs: seq<Group>)
    requires |w| == 7 && ListOk(w, DECLARED, 3) && ListOk(w[..6], DECLARED, 3) && OutOfOrder(w, DECLARED, 3, P, 6)
    requires GroupsAt(After(w[..6], DECLARED, 3), P) == gs && w[6] == K(1)
    ensures ListOk(w + [K(4)], DECLARED, 3)
    ensures var e := After(w + [K(4)], DECLARED, 3);
            && HaveMasks(P, GroupsAt(e, P), e.masks)
            && Late(P, GroupsAt(e, P), e.masks, gs, [1, 4], 3)
  {
    Lookups();
    hide PortOk, Late, HaveMasks, InOrder, After, DECLARED, EAST, NORTH, WEST, OutOfOrder;
    var w' := w + [K(4)];
    assert w'[..7] == w && w'[..6] == w[..6];
    Eight();
    assert ListOk(w', DECLARED, 3);
    hide ListOk;
    OutOfOrderNext(w', DECLARED, 3, P, 6);
    StrayIds(w');
    InDestsAt(w', DECLARED, 3, P);
    LateOf(w', 6);
  }

  lemma LateOf(w: seq<PhysPortAndID>, m: nat)
    requires m <= |w| && ListOk(w, DECLARED, 3) && ListOk(w[..m], DECLARED, 3) && OutOfOrder(w, DECLARED, 3, P, m)
    ensures var e, e0 := After(w, DECLARED, 3), After(w[..m], DECLARED, 3);
            Late(P, GroupsAt(e, P), e.masks, GroupsAt(e0, P), IdSeq(w[m..], P), 3)
  {
    hide Late, Overlapping, After, ListOk;
  }

  lemma StrayIds(w: seq<PhysPortAndID>)
    requires |w| == 8 && w[6] == K(1) && w[7] == K(4)
    ensures IdSeq(w[6..], P) == [1, 4]
  {
    NextIds(w, 6, P);
    OneId(w[..7][6..], P);
    assert [1] + [4] == [1, 4];
  }

  lemma StraysSort()
    ensures SortGroups([[4], [1, 3], [2, 5]] + Singles([1, 4])) == [[1], [4], [4], [1, 3], [2, 5]]
  {
    Orders();
    hide GroupLess;
    var gs, r := [[4], [1, 3], [2, 5]], [[1], [4], [4], [1, 3], [2, 5]];
    assert gs + Singles([1, 4]) == gs + [[1], [4]] && r == [[1], [4]] + gs;
    SortedFour(1, 4, [1, 3], [2, 5]);
    SortedAgain(1, 4, [1, 3], [2, 5]);
    SortFront(gs, [[1], [4]]);
  }

  lemma SortedAgain(x: Id, y: Id, a: Group, b: Group)
    requires Sorted([[x], [y], a, b])
    ensures Sorted([[x], [y], [y], a, b])
  {
    LessTotal([y], [y]);
    hide GroupLess;
    var s, r := [[x], [y], a, b], [[x], [y], [y], a, b];
    forall i, j | 0 <= i < j < |r|
      ensures !GroupLess(r[j], r[i])
    {
      var i', j' := if i < 2 then i else i - 1, if j < 2 then j else j - 1;
      assert r[i] == s[i'] && r[j] == s[j'];
    }
  }

  lemma StraysCounts()
    ensures OncePerPort(STRAYS + [K(1)] + [K(4)])
  {
    var w := STRAYS + [K(1)] + [K(4)];
    assert w == [K(2), K(3), K(5), K(3), K(1), K(4), K(1), K(4)];
    TwoPorts();
    Lookups();
    hide DECLARED, EAST, NORTH, WEST;
  }
}
