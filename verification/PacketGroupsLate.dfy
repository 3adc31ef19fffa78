/**
 * What happens to a port after a repeated ID was not found in the first group with its destinations.
 *
 * From then on two groups share an ID, so no merge verifies any more: every further entry, new or
 * repeated, adds a singleton and stores a full mask, and changes nothing else.
 */
module PacketGroupsLate {
  import opened Common
  import opened PacketTypes
  import opened PacketGroups
  import opened PacketGroupsProof
  import opened PacketGroupsRepeat

  function Singles(ids: seq<Id>): (r: seq<Group>)
    ensures |r| == |ids| && forall i :: 0 <= i < |ids| ==> r[i] == [ids[i]]
  {
    seq(|ids|, i requires 0 <= i < |ids| => [ids[i]])
  }

  lemma SinglesMembers(ids: seq<Id>)
    ensures forall g :: g in Singles(ids) <==> exists x :: x in ids && g == [x]
  {
    forall g | g in Singles(ids)
      ensures exists x :: x in ids && g == [x]
    {
      var i :| 0 <= i < |ids| && Singles(ids)[i] == g;
      assert ids[i] in ids;
    }
    forall x | x in ids
      ensures [x] in Singles(ids)
    {
      var i :| 0 <= i < |ids| && ids[i] == x;
      assert Singles(ids)[i] == [x];
    }
  }

  /** The mask stored for `x` is that of `g`. */
  ghost predicate MaskIs(port: PhysPort, masks: Masks, x: Id, g: Group, numMaskBits: nat)
  {
    g != [] && PhysPortAndID(port, x) in masks && masks[PhysPortAndID(port, x)] == GroupMask(g, numMaskBits)
  }

  /** The groups of `base` with a singleton for each of `extra`, and the masks that go with them. */
  ghost predicate Late(port: PhysPort, gs: seq<Group>, masks: Masks, base: seq<Group>, extra: seq<Id>, numMaskBits: nat)
  {
    && gs == SortGroups(base + Singles(extra))
    && (forall x :: x in extra ==> MaskIs(port, masks, x, [x], numMaskBits))
    && (forall g, x :: g in base && x in g && x !in extra ==> MaskIs(port, masks, x, g, numMaskBits))
  }

  ghost predicate Declared(port: PhysPort, dests: Dests, numMaskBits: nat, x: Id)
  {
    x < Pow2(numMaskBits) && PhysPortAndID(port, x) in dests
  }

  /** `base` was in order, and `extra` begins with an ID that was in it. */
  ghost predicate Overlapping(port: PhysPort, base: seq<Group>, masks0: Masks, extra: seq<Id>, dests: Dests,
                              numMaskBits: nat, done: set<Id>)
  {
    && PortOk(port, base, masks0, dests, numMaskBits, done)
    && extra != [] && extra[0] in done
    && forall x :: x in extra ==> Declared(port, dests, numMaskBits, x)
  }

  lemma LateMembers(base: seq<Group>, extra: seq<Id>)
    ensures forall g :: g in SortGroups(base + Singles(extra)) <==> g in base || exists x :: x in extra && g == [x]
    ensures Sorted(SortGroups(base + Singles(extra)))
  {
    SortMembers(base + Singles(extra));
    SinglesMembers(extra);
    SortSorted(base + Singles(extra));
    hide SortGroups;
  }

  // ---- two groups with a common ID

  /** `a` and `b` stand at two different places. */
  ghost predicate TwoPlaces<T>(s: seq<T>, a: T, b: T)
  {
    exists i, j :: 0 <= i < |s| && 0 <= j < |s| && i != j && s[i] == a && s[j] == b
  }

  lemma TwiceCounted<T>(s: seq<T>, a: T)
    requires TwoPlaces(s, a, a)
    ensures multiset(s)[a] >= 2
  {
    var i, j :| 0 <= i < |s| && 0 <= j < |s| && i != j && s[i] == a && s[j] == a;
    var p, q := if i < j then i else j, if i < j then j else i;
    var left, right := s[..q], s[q..];
    assert s == left + right;
    assert left[p] == a && right[0] == a;
    assert a in multiset(left) && a in multiset(right);
  }

  lemma CountedTwice<T>(s: seq<T>, a: T)
    requires multiset(s)[a] >= 2
    ensures TwoPlaces(s, a, a)
  {
    assert a in s;
    var i :| 0 <= i < |s| && s[i] == a;
    var left, right := s[..i], s[i + 1..];
    assert s == left + [a] + right;
    if a in left {
      var k :| 0 <= k < |left| && left[k] == a;
      assert s[k] == a;
    } else {
      assert a in multiset(right);
      var k :| 0 <= k < |right| && right[k] == a;
      assert s[i + 1 + k] == a;
    }
  }

  lemma TwoPlacesCount<T>(s: seq<T>, a: T, b: T)
    ensures TwoPlaces(s, a, b) <==> if a == b then multiset(s)[a] >= 2 else a in s && b in s
  {
    if a == b {
      if TwoPlaces(s, a, a) {
        TwiceCounted(s, a);
      }
      if multiset(s)[a] >= 2 {
        CountedTwice(s, a);
      }
    }
  }

  lemma TwoPlacesPermuted<T>(s: seq<T>, r: seq<T>, a: T, b: T)
    requires multiset(s) == multiset(r) && TwoPlaces(s, a, b)
    ensures TwoPlaces(r, a, b)
  {
    TwoPlacesCount(s, a, b);
    TwoPlacesCount(r, a, b);
    assert forall x :: x in s <==> x in multiset(s);
    assert forall x :: x in r <==> x in multiset(r);
  }

  /** The rule of `g` catches `w`, and `w` is one of its IDs. */
  ghost predicate Catches(port: PhysPort, g: Group, masks: Masks, w: Id)
  {
    g != [] && PhysPortAndID(port, g[0]) in masks && w in g && RuleMatches(port, g, masks, w)
  }

  /** Two groups that catch the same ID: the list does not verify. */
  lemma SharedRejected(port: PhysPort, s: seq<Group>, r: seq<Group>, masks: Masks, a: Group, b: Group, w: Id)
    requires multiset(s) == multiset(r) && TwoPlaces(s, a, b) && HaveMasks(port, r, masks)
    requires Catches(port, a, masks, w) && Catches(port, b, masks, w)
    ensures !NoShadowing(port, r, masks)
  {
    TwoPlacesPermuted(s, r, a, b);
    hide RuleMatches;
    var i, j :| 0 <= i < |r| && 0 <= j < |r| && i != j && r[i] == a && r[j] == b;
    if i < j {
      assert w in r[j] && RuleMatches(port, r[i], masks, w);
    } else {
      assert w in r[i] && RuleMatches(port, r[j], masks, w);
    }
  }

  lemma FirstCatches(port: PhysPort, g: Group, masks: Masks)
    requires g != [] && PhysPortAndID(port, g[0]) in masks
    ensures Catches(port, g, masks, g[0])
  {
  }

  lemma ExactCatches(port: PhysPort, g: Group, masks: Masks, w: Id, numMaskBits: nat)
    requires g != [] && MaskIs(port, masks, g[0], g, numMaskBits) && w in g
    ensures Catches(port, g, masks, w)
  {
    MemberMatches(g, numMaskBits, w);
  }

  // ---- no merge verifies

  lemma MergedExact(port: PhysPort, e: Group, masks: Masks, numMaskBits: nat, w: Id)
    requires w in e
    ensures Catches(port, e, UpdatedMasks(port, e, masks, numMaskBits), w)
  {
    assert e[0] in e;
    ExactCatches(port, e, UpdatedMasks(port, e, masks, numMaskBits), w, numMaskBits);
  }

  lemma OtherMask(port: PhysPort, e: Group, masks: Masks, numMaskBits: nat, x: Id, g: Group)
    requires x !in e && MaskIs(port, masks, x, g, numMaskBits)
    ensures MaskIs(port, UpdatedMasks(port, e, masks, numMaskBits), x, g, numMaskBits)
  {
  }

  /** Places other than the merged one keep their groups. */
  lemma PlacesKept(s: seq<Group>, k: nat, e: Group, i: nat, j: nat)
    requires k < |s| && i < |s| && j < |s| && i != j
    ensures TwoPlaces(s[k := e], if i == k then e else s[i], if j == k then e else s[j])
  {
    var t := s[k := e];
    assert t[i] == (if i == k then e else s[i]) && t[j] == (if j == k then e else s[j]);
  }

  /** The base group `g` at place `i` and a singleton of one of its IDs at place `j`: some ID is caught twice. */
  lemma CaughtTwice(port: PhysPort, s: seq<Group>, masks: Masks, base: seq<Group>, extra: seq<Id>, numMaskBits: nat,
                    k: nat, x: Id, i: nat, j: nat)
    returns (a: Group, b: Group, w: Id)
    requires k < |s| && s[k] != [] && i < |s| && j < |s| && i != j && s[i] in base && s[i] != [] && |s[j]| == 1
    requires s[j][0] in s[i]
    requires forall y :: y in extra ==> [y] in s && MaskIs(port, masks, y, [y], numMaskBits)
    requires forall g, y :: g in base && y in g && y !in extra ==> MaskIs(port, masks, y, g, numMaskBits)
    requires s[j][0] in extra
    ensures var e := InsertId(s[k], x);
            var m := UpdatedMasks(port, e, masks, numMaskBits);
            TwoPlaces(s[k := e], a, b) && Catches(port, a, m, w) && Catches(port, b, m, w)
  {
    hide UpdatedMasks, GroupMask, MaskIs, Catches, TwoPlaces;
    var g, y, z := s[i], s[j][0], s[i][0];
    var e := InsertId(s[k], x);
    var m := UpdatedMasks(port, e, masks, numMaskBits);
    assert s[j] == [y] && z in g;
    PlacesKept(s, k, e, i, j);
    if i == k {
      a, b, w := e, [y], y;
      MergedExact(port, e, masks, numMaskBits, y);
      StillThere(port, e, masks, numMaskBits, y, [y]);
      FirstCatches(port, [y], m);
    } else if z in e {
      a, b, w := g, e, z;
      PlacesKept(s, k, e, i, k);
      MergedExact(port, e, masks, numMaskBits, z);
      StoredFor(port, e, masks, numMaskBits, z);
      FirstCatches(port, g, m);
    } else if z in extra && z != y {
      var l :| 0 <= l < |s| && s[l] == [z];
      a, b, w := g, [z], z;
      assert l != i by { assert y in g; }
      assert l != k by { assert z in s[l]; }
      PlacesKept(s, k, e, i, l);
      StillThere(port, e, masks, numMaskBits, z, [z]);
      FirstCatches(port, g, m);
      FirstCatches(port, [z], m);
    } else if z == y {
      a, b, w := g, [y], y;
      assert j != k by { assert y in s[j]; }
      StillThere(port, e, masks, numMaskBits, y, [y]);
      FirstCatches(port, g, m);
      FirstCatches(port, [y], m);
    } else {
      a, b, w := g, if j == k then e else [y], y;
      OtherMask(port, e, masks, numMaskBits, z, g);
      ExactCatches(port, g, m, y, numMaskBits);
      if j == k {
        MergedExact(port, e, masks, numMaskBits, y);
      } else {
        StillThere(port, e, masks, numMaskBits, y, [y]);
        FirstCatches(port, [y], m);
      }
    }
  }

  lemma StillThere(port: PhysPort, e: Group, masks: Masks, numMaskBits: nat, x: Id, g: Group)
    requires MaskIs(port, masks, x, g, numMaskBits)
    ensures PhysPortAndID(port, x) in UpdatedMasks(port, e, masks, numMaskBits)
  {
  }

  lemma StoredFor(port: PhysPort, e: Group, masks: Masks, numMaskBits: nat, x: Id)
    requires x in e
    ensures PhysPortAndID(port, x) in UpdatedMasks(port, e, masks, numMaskBits)
  {
  }

  /** The first ID of `extra` stands in a group of `base` and in a singleton. */
  lemma OverlapPlaces(base: seq<Group>, extra: seq<Id>, g: Group) returns (i: nat, j: nat)
    requires g in base && extra != [] && extra[0] in g
    ensures var s := SortGroups(base + Singles(extra));
            i < |s| && j < |s| && i != j && s[i] == g && s[j] == [extra[0]]
  {
    var r, s := base + Singles(extra), SortGroups(base + Singles(extra));
    var p :| 0 <= p < |base| && base[p] == g;
    assert r[p] == g && r[|base|] == [extra[0]];
    assert TwoPlaces(r, g, [extra[0]]);
    TwoPlacesPermuted(r, s, g, [extra[0]]);
    hide SortGroups;
    i, j :| 0 <= i < |s| && 0 <= j < |s| && i != j && s[i] == g && s[j] == [extra[0]];
  }

  /** No merge verifies any more, into whatever group. */
  lemma LateRejected(port: PhysPort, gs: seq<Group>, masks: Masks, base: seq<Group>, masks0: Masks, extra: seq<Id>,
                     dests: Dests, numMaskBits: nat, done: set<Id>, k: nat, x: Id)
    requires Late(port, gs, masks, base, extra, numMaskBits)
    requires Overlapping(port, base, masks0, extra, dests, numMaskBits, done)
    requires k < |gs| && HaveMasks(port, gs, masks)
    ensures var m := Merged(port, x, gs, masks, numMaskBits, k);
            HaveMasks(port, m.0, m.1) && !NoShadowing(port, m.0, m.1)
  {
    hide PortOk, NoShadowing, SortGroups, MaskIs, Sorted, TwoPlaces, Catches, UpdatedMasks, InsertId;
    assert gs[k] != [] && extra[0] in extra;
    hide HaveMasks;
    MergedMasks(port, x, gs, masks, numMaskBits, k);
    LateMembers(base, extra);
    var g := BaseGroup(port, base, masks0, dests, numMaskBits, done, extra[0]);
    var i, j := OverlapPlaces(base, extra, g);
    var a, b, w := CaughtTwice(port, gs, masks, base, extra, numMaskBits, k, x, i, j);
    var e := InsertId(gs[k], x);
    SharedRejected(port, gs[k := e], SortGroups(gs[k := e]), UpdatedMasks(port, e, masks, numMaskBits), a, b, w);
  }

  lemma BaseGroup(port: PhysPort, base: seq<Group>, masks0: Masks, dests: Dests, numMaskBits: nat, done: set<Id>, x: Id)
    returns (g: Group)
    requires PortOk(port, base, masks0, dests, numMaskBits, done) && x in done
    ensures g in base && x in g && g != []
  {
    hide Sorted, NoDup, NotMatched, Disjoint, GroupOk;
    g :| g in base && x in g;
  }

  // ---- one more entry

  /** The first group with the destinations of `x` stores its own mask under all its IDs. */
  lemma FirstExact(port: PhysPort, gs: seq<Group>, masks: Masks, base: seq<Group>, masks0: Masks, extra: seq<Id>,
                   dests: Dests, numMaskBits: nat, done: set<Id>, x: Id, z: Id)
    requires Late(port, gs, masks, base, extra, numMaskBits)
    requires Overlapping(port, base, masks0, extra, dests, numMaskBits, done)
    requires Declared(port, dests, numMaskBits, x) && InDests(port, gs, dests)
    requires FirstMatch(port, x, gs, dests, 0) < |gs| && z in gs[FirstMatch(port, x, gs, dests, 0)]
    ensures MaskIs(port, masks, z, gs[FirstMatch(port, x, gs, dests, 0)], numMaskBits)
  {
    var k := FirstMatch(port, x, gs, dests, 0);
    var g := gs[k];
    LateMembers(base, extra);
    hide FirstMatch, SortGroups, MaskIs;
    assert g in gs;
    if g in base && z in extra {
      BaseIds(port, base, masks0, dests, numMaskBits, done, g, z);
      OneOrMore(g, z);
      if |g| >= 2 {
        var l := SingleEarlier(gs, k, z);
      }
    }
  }

  lemma OneOrMore(g: Group, z: Id)
    requires z in g
    ensures g == [z] || |g| >= 2
  {
    if |g| == 1 {
      assert g == [g[0]];
    }
  }

  lemma SingleEarlier(gs: seq<Group>, k: nat, z: Id) returns (l: nat)
    requires Sorted(gs) && k < |gs| && |gs[k]| >= 2 && [z] in gs
    ensures l < k && gs[l] == [z]
  {
    l :| 0 <= l < |gs| && gs[l] == [z];
    assert GroupLess(gs[l], gs[k]);
  }

  /** What a group that was in order says about its IDs. */
  lemma BaseIds(port: PhysPort, base: seq<Group>, masks0: Masks, dests: Dests, numMaskBits: nat, done: set<Id>,
                g: Group, z: Id)
    requires PortOk(port, base, masks0, dests, numMaskBits, done) && g in base && z in g
    ensures g != [] && Ascending(g) && z in done && z < Pow2(numMaskBits)
    ensures PhysPortAndID(port, z) in dests && PhysPortAndID(port, g[0]) in dests
    ensures dests[PhysPortAndID(port, z)] == dests[PhysPortAndID(port, g[0])]
  {
    hide Sorted, NoDup, NotMatched, Disjoint, Pow2;
    assert GroupOk(port, g, masks0, dests, numMaskBits);
    assert IdOk(port, z, g, masks0, dests, numMaskBits);
  }

  /** Every entry adds a singleton with a full mask and changes nothing else. */
  lemma LateStep(port: PhysPort, gs: seq<Group>, masks: Masks, base: seq<Group>, masks0: Masks, extra: seq<Id>,
                 dests: Dests, numMaskBits: nat, done: set<Id>, x: Id)
    requires Late(port, gs, masks, base, extra, numMaskBits)
    requires Overlapping(port, base, masks0, extra, dests, numMaskBits, done)
    requires Declared(port, dests, numMaskBits, x) && InDests(port, gs, dests) && HaveMasks(port, gs, masks)
    ensures var r := AddId(port, x, gs, masks, dests, numMaskBits);
            Late(port, r.0, r.1, base, extra + [x], numMaskBits)
  {
    var k := FirstMatch(port, x, gs, dests, 0);
    if k < |gs| {
      LateRejected(port, gs, masks, base, masks0, extra, dests, numMaskBits, done, k, x);
      forall z | z in gs[k]
        ensures MaskIs(port, masks, z, gs[k], numMaskBits)
      {
        FirstExact(port, gs, masks, base, masks0, extra, dests, numMaskBits, done, x, z);
      }
      hide Late, Overlapping, InDests, HaveMasks, NoShadowing, FirstMatch;
      hide MaskIs, SortGroups, UpdatedMasks, InsertId, Late;
      var m1 := UpdatedMasks(port, InsertId(gs[k], x), masks, numMaskBits);
      Restored(port, gs[k], masks, numMaskBits, x);
      LateAdded(port, gs, masks, UpdatedMasks(port, gs[k], m1, numMaskBits), base, extra, numMaskBits, x);
    } else {
      hide Late, Overlapping, InDests, HaveMasks, NoShadowing, FirstMatch;
      hide MaskIs, SortGroups, UpdatedMasks, InsertId, Late;
      LateAdded(port, gs, masks, masks, base, extra, numMaskBits, x);
    }
  }

  /** Only the mask of `x` may differ. */
  ghost predicate SameBut(masks: Masks, m: Masks, port: PhysPort, x: Id)
  {
    forall z :: z != x && PhysPortAndID(port, z) in masks ==>
      PhysPortAndID(port, z) in m && m[PhysPortAndID(port, z)] == masks[PhysPortAndID(port, z)]
  }

  lemma Restored(port: PhysPort, g: Group, masks: Masks, numMaskBits: nat, x: Id)
    requires forall z :: z in g ==> MaskIs(port, masks, z, g, numMaskBits)
    ensures SameBut(
      masks, UpdatedMasks(port, g, UpdatedMasks(port, InsertId(g, x), masks, numMaskBits), numMaskBits), port, x)
  {
    var m1 := UpdatedMasks(port, InsertId(g, x), masks, numMaskBits);
    var m2 := UpdatedMasks(port, g, m1, numMaskBits);
    forall z | z != x && PhysPortAndID(port, z) in masks
      ensures PhysPortAndID(port, z) in m2 && m2[PhysPortAndID(port, z)] == masks[PhysPortAndID(port, z)]
    {
      assert z in InsertId(g, x) <==> z in g;
      if z in g {
        assert MaskIs(port, masks, z, g, numMaskBits);
      }
    }
  }

  lemma LateAdded(port: PhysPort, gs: seq<Group>, masks: Masks, m: Masks, base: seq<Group>, extra: seq<Id>,
                  numMaskBits: nat, x: Id)
    requires Late(port, gs, masks, base, extra, numMaskBits) && SameBut(masks, m, port, x)
    ensures var r := NewGroup(port, x, gs, m, numMaskBits);
            Late(port, r.0, r.1, base, extra + [x], numMaskBits)
  {
    hide SortGroups, UpdatedMasks, MaskIs, SameBut;
    var m' := UpdatedMasks(port, [x], m, numMaskBits);
    SortAgain(base, extra, x);
    FullStored(port, m, x, numMaskBits);
    forall y | y in extra + [x]
      ensures MaskIs(port, m', y, [y], numMaskBits)
    {
      if y != x {
        KeptMask(port, masks, m, x, y, [y], numMaskBits);
      }
    }
    forall g, y | g in base && y in g && y !in extra + [x]
      ensures MaskIs(port, m', y, g, numMaskBits)
    {
      KeptMask(port, masks, m, x, y, g, numMaskBits);
    }
  }

  lemma FullStored(port: PhysPort, m: Masks, x: Id, numMaskBits: nat)
    ensures MaskIs(port, UpdatedMasks(port, [x], m, numMaskBits), x, [x], numMaskBits)
  {
    assert x in [x];
  }

  lemma KeptMask(port: PhysPort, masks: Masks, m: Masks, x: Id, y: Id, g: Group, numMaskBits: nat)
    requires MaskIs(port, masks, y, g, numMaskBits) && y != x && SameBut(masks, m, port, x)
    ensures MaskIs(port, UpdatedMasks(port, [x], m, numMaskBits), y, g, numMaskBits)
  {
  }

  lemma SortAgain(base: seq<Group>, extra: seq<Id>, x: Id)
    ensures SortGroups(SortGroups(base + Singles(extra)) + [[x]]) == SortGroups(base + Singles(extra + [x]))
  {
    var a, b := SortGroups(base + Singles(extra)) + [[x]], base + Singles(extra + [x]);
    assert Singles(extra + [x]) == Singles(extra) + [[x]];
    assert b == (base + Singles(extra)) + [[x]];
    SortSorted(a);
    SortSorted(b);
    SortedUnique(SortGroups(a), SortGroups(b));
  }

  // ---- how it begins

  /** A repeated ID that the first group with its destinations does not hold. */
  lemma EnterLate(port: PhysPort, x: Id, gs: seq<Group>, masks: Masks, dests: Dests, numMaskBits: nat, done: set<Id>)
    requires PortOk(port, gs, masks, dests, numMaskBits, done) && InDests(port, gs, dests) && HaveMasks(port, gs, masks)
    requires x in done && PhysPortAndID(port, x) in dests
    requires FirstMatch(port, x, gs, dests, 0) < |gs| && x !in gs[FirstMatch(port, x, gs, dests, 0)]
    ensures var r := AddId(port, x, gs, masks, dests, numMaskBits);
            Late(port, r.0, r.1, gs, [x], numMaskBits) && Overlapping(port, gs, masks, [x], dests, numMaskBits, done)
  {
    hide PortOk, InDests, HaveMasks, FirstMatch, AddId, MaskIs, SortGroups;
    hide UpdatedMasks, InsertId, Late, NewGroup, SameBut, Declared;
    var k := FirstMatch(port, x, gs, dests, 0);
    var own := OwnPlace(port, gs, masks, dests, numMaskBits, done, x);
    RepeatResult(port, x, gs, masks, dests, numMaskBits, done, own);
    GroupExact(port, gs, masks, dests, numMaskBits, done, gs[k]);
    Restored(port, gs[k], masks, numMaskBits, x);
    var m1 := UpdatedMasks(port, InsertId(gs[k], x), masks, numMaskBits);
    NotLateYet(port, gs, masks, dests, numMaskBits, done);
    LateAdded(port, gs, masks, UpdatedMasks(port, gs[k], m1, numMaskBits), gs, [], numMaskBits, x);
    assert [] + [x] == [x];
  }

  lemma OwnPlace(port: PhysPort, gs: seq<Group>, masks: Masks, dests: Dests, numMaskBits: nat, done: set<Id>, x: Id)
    returns (own: nat)
    requires PortOk(port, gs, masks, dests, numMaskBits, done) && x in done
    ensures own < |gs| && x in gs[own] && Declared(port, dests, numMaskBits, x)
  {
    var g :| g in gs && x in g;
    own :| 0 <= own < |gs| && gs[own] == g;
    BaseIds(port, gs, masks, dests, numMaskBits, done, g, x);
  }

  lemma GroupExact(port: PhysPort, gs: seq<Group>, masks: Masks, dests: Dests, numMaskBits: nat, done: set<Id>,
                   g: Group)
    requires PortOk(port, gs, masks, dests, numMaskBits, done) && g in gs
    ensures forall z :: z in g ==> MaskIs(port, masks, z, g, numMaskBits)
  {
    hide Sorted, NoDup, NotMatched, Disjoint;
    assert GroupOk(port, g, masks, dests, numMaskBits);
    forall z | z in g
      ensures MaskIs(port, masks, z, g, numMaskBits)
    {
      assert IdOk(port, z, g, masks, dests, numMaskBits);
    }
  }

  lemma NotLateYet(port: PhysPort, gs: seq<Group>, masks: Masks, dests: Dests, numMaskBits: nat, done: set<Id>)
    requires PortOk(port, gs, masks, dests, numMaskBits, done)
    ensures Late(port, gs, masks, gs, [], numMaskBits)
  {
    assert gs + Singles([]) == gs;
    SortSorted(gs);
    SortedUnique(SortGroups(gs), gs);
    forall g, x | g in gs && x in g
      ensures MaskIs(port, masks, x, g, numMaskBits)
    {
      GroupExact(port, gs, masks, dests, numMaskBits, done, g);
    }
    hide PortOk, SortGroups, MaskIs;
  }

  // ---- what the rules then do

  /** The first rule that matches `x` is that of a group that contains it. */
  ghost predicate Caught(port: PhysPort, gs: seq<Group>, masks: Masks, x: Id)
    requires HaveMasks(port, gs, masks)
  {
    var first := FirstRule(port, gs, masks, x, 0);
    first.Some? && first.value < |gs| && x in gs[first.value]
  }

  /** The first matching rule, by its properties. */
  lemma {:induction false} FirstRuleIs(port: PhysPort, gs: seq<Group>, masks: Masks, x: Id, i: nat, k: nat)
    requires HaveMasks(port, gs, masks) && i <= k < |gs| && RuleMatches(port, gs[k], masks, x)
    requires forall j :: i <= j < k ==> !RuleMatches(port, gs[j], masks, x)
    ensures FirstRule(port, gs, masks, x, i) == Some(k)
    decreases k - i
  {
    if i < k {
      FirstRuleIs(port, gs, masks, x, i + 1, k);
    }
  }

  lemma {:induction false} FirstRuleMatches(port: PhysPort, gs: seq<Group>, masks: Masks, x: Id, i: nat)
    requires HaveMasks(port, gs, masks) && i <= |gs|
    ensures var first := FirstRule(port, gs, masks, x, i);
            first.Some? ==> i <= first.value < |gs| && RuleMatches(port, gs[first.value], masks, x)
    decreases |gs| - i
  {
    if i < |gs| {
      FirstRuleMatches(port, gs, masks, x, i + 1);
    }
  }

  /** Some group that contains `x` matches it, and no group before it matches `x` unless it contains it. */
  lemma CaughtAt(port: PhysPort, gs: seq<Group>, masks: Masks, x: Id, k: nat)
    requires HaveMasks(port, gs, masks) && k < |gs| && x in gs[k] && RuleMatches(port, gs[k], masks, x)
    requires forall j :: 0 <= j < k && RuleMatches(port, gs[j], masks, x) ==> x in gs[j]
    ensures Caught(port, gs, masks, x)
  {
    hide RuleMatches;
    var first := FirstOf(port, gs, masks, x, k);
    FirstRuleIs(port, gs, masks, x, 0, first);
  }

  lemma {:induction false} FirstOf(port: PhysPort, gs: seq<Group>, masks: Masks, x: Id, k: nat) returns (first: nat)
    requires HaveMasks(port, gs, masks) && k < |gs| && RuleMatches(port, gs[k], masks, x)
    ensures first <= k && RuleMatches(port, gs[first], masks, x)
    ensures forall j :: 0 <= j < first ==> !RuleMatches(port, gs[j], masks, x)
    decreases k
  {
    first := k;
    if j :| 0 <= j < k && RuleMatches(port, gs[j], masks, x) {
      first := FirstOf(port, gs, masks, x, j);
    }
  }

  /** A rule with the full mask of its ID matches that ID only. */
  lemma FullRule(port: PhysPort, g: Group, masks: Masks, dests: Dests, numMaskBits: nat, w: Id)
    requires g != [] && MaskIs(port, masks, g[0], [g[0]], numMaskBits)
    requires Declared(port, dests, numMaskBits, g[0]) && Declared(port, dests, numMaskBits, w)
    ensures RuleMatches(port, g, masks, w) <==> w == g[0]
  {
    SingletonMatches(g[0], w, numMaskBits);
    hide GroupMask;
  }

  lemma ExactRule(port: PhysPort, g: Group, masks: Masks, numMaskBits: nat, w: Id)
    requires g != [] && MaskIs(port, masks, g[0], g, numMaskBits)
    ensures RuleMatches(port, g, masks, w) <==> MaskedEqual(w, g[0], GroupMask(g, numMaskBits))
  {
    hide GroupMask, MaskedEqual;
  }

  /** The groups of a port late on: base groups in order, and singletons of declared IDs. */
  lemma LateGroup(port: PhysPort, gs: seq<Group>, masks: Masks, base: seq<Group>, masks0: Masks, extra: seq<Id>,
                  dests: Dests, numMaskBits: nat, done: set<Id>, j: nat)
    requires Late(port, gs, masks, base, extra, numMaskBits) && j < |gs|
    requires Overlapping(port, base, masks0, extra, dests, numMaskBits, done)
    ensures var h := gs[j];
            && h != [] && Declared(port, dests, numMaskBits, h[0])
            && (h in base || (h == [h[0]] && h[0] in extra))
            && (h[0] in extra ==> MaskIs(port, masks, h[0], [h[0]], numMaskBits))
            && (h in base && h[0] !in extra ==> MaskIs(port, masks, h[0], h, numMaskBits))
            && Sorted(gs)
  {
    LateMembers(base, extra);
    hide SortGroups, MaskIs, Sorted, Pow2;
    var h := gs[j];
    assert h in gs;
    if h in base {
      assert h != [] && h[0] in h by { BaseNonEmpty(port, base, masks0, dests, numMaskBits, done, h); }
      BaseIds(port, base, masks0, dests, numMaskBits, done, h, h[0]);
    } else {
      var x :| x in extra && h == [x];
      assert h[0] == x;
    }
  }

  lemma BaseNonEmpty(port: PhysPort, base: seq<Group>, masks0: Masks, dests: Dests, numMaskBits: nat, done: set<Id>,
                     h: Group)
    requires PortOk(port, base, masks0, dests, numMaskBits, done) && h in base
    ensures h != []
  {
    assert GroupOk(port, h, masks0, dests, numMaskBits);
  }

  lemma SmallerFirst(gs: seq<Group>, j: nat, k: nat)
    requires Sorted(gs) && j < k < |gs|
    ensures |gs[j]| <= |gs[k]| && (gs[j] == gs[k] || GroupLess(gs[j], gs[k]))
  {
    LessTotal(gs[j], gs[k]);
  }

  /** An ID with a singleton of its own is caught there. */
  lemma ExtraCaught(port: PhysPort, gs: seq<Group>, masks: Masks, base: seq<Group>, masks0: Masks, extra: seq<Id>,
                    dests: Dests, numMaskBits: nat, done: set<Id>, w: Id)
    requires Late(port, gs, masks, base, extra, numMaskBits) && HaveMasks(port, gs, masks) && w in extra
    requires Overlapping(port, base, masks0, extra, dests, numMaskBits, done)
    ensures Caught(port, gs, masks, w)
  {
    LateMembers(base, extra);
    assert [w] in gs;
    hide PortOk, SortGroups, MaskIs, Caught, RuleMatches;
    var k :| 0 <= k < |gs| && gs[k] == [w];
    assert Declared(port, dests, numMaskBits, w);
    hide Declared, HaveMasks;
    LateGroup(port, gs, masks, base, masks0, extra, dests, numMaskBits, done, k);
    FullRule(port, gs[k], masks, dests, numMaskBits, w);
    forall j | 0 <= j < k && RuleMatches(port, gs[j], masks, w)
      ensures w in gs[j]
    {
      LateGroup(port, gs, masks, base, masks0, extra, dests, numMaskBits, done, j);
      SmallerFirst(gs, j, k);
      assert gs[j] == [gs[j][0]];
      FullRule(port, gs[j], masks, dests, numMaskBits, w);
    }
    CaughtAt(port, gs, masks, w, k);
  }

  /** An ID without one is caught by its group, unless the group's smallest ID has a singleton. */
  lemma BaseCaught(port: PhysPort, gs: seq<Group>, masks: Masks, base: seq<Group>, masks0: Masks, extra: seq<Id>,
                   dests: Dests, numMaskBits: nat, done: set<Id>, g: Group, w: Id)
    requires Late(port, gs, masks, base, extra, numMaskBits) && HaveMasks(port, gs, masks)
    requires Overlapping(port, base, masks0, extra, dests, numMaskBits, done)
    requires g in base && w in g && w !in extra && g != [] && g[0] !in extra
    ensures Caught(port, gs, masks, w)
  {
    LateMembers(base, extra);
    assert g in gs;
    BaseIds(port, base, masks0, dests, numMaskBits, done, g, w);
    assert Declared(port, dests, numMaskBits, w);
    hide PortOk, SortGroups, MaskIs, Caught, RuleMatches, Declared, GroupMask, Ascending;
    var k :| 0 <= k < |gs| && gs[k] == g;
    LateGroup(port, gs, masks, base, masks0, extra, dests, numMaskBits, done, k);
    ExactRule(port, g, masks, numMaskBits, w);
    MemberMatches(g, numMaskBits, w);
    forall j | 0 <= j < k && RuleMatches(port, gs[j], masks, w)
      ensures w in gs[j]
    {
      var h := gs[j];
      LateGroup(port, gs, masks, base, masks0, extra, dests, numMaskBits, done, j);
      SmallerFirst(gs, j, k);
      if h[0] in extra {
        FullRule(port, h, masks, dests, numMaskBits, w);
      } else if h != g {
        ExactRule(port, h, masks, numMaskBits, w);
        BaseOrder(port, base, masks0, dests, numMaskBits, done, h, g, w);
      }
    }
    CaughtAt(port, gs, masks, w, k);
  }

  lemma BaseOrder(port: PhysPort, base: seq<Group>, masks0: Masks, dests: Dests, numMaskBits: nat, done: set<Id>,
                  h: Group, g: Group, w: Id)
    requires PortOk(port, base, masks0, dests, numMaskBits, done) && h in base && g in base && GroupLess(h, g) && w in g
    ensures h != [] && !MaskedEqual(w, h[0], GroupMask(h, numMaskBits))
  {
    assert GroupOk(port, h, masks0, dests, numMaskBits);
    assert NotMatched(h, g, numMaskBits);
  }

  /** In that case its group's rule does not match it, and no other group holds it. */
  lemma BaseLost(port: PhysPort, gs: seq<Group>, masks: Masks, base: seq<Group>, masks0: Masks, extra: seq<Id>,
                 dests: Dests, numMaskBits: nat, done: set<Id>, g: Group, w: Id)
    requires Late(port, gs, masks, base, extra, numMaskBits) && HaveMasks(port, gs, masks)
    requires Overlapping(port, base, masks0, extra, dests, numMaskBits, done)
    requires g in base && w in g && w !in extra && g != [] && g[0] in extra
    ensures !Caught(port, gs, masks, w)
  {
    BaseIds(port, base, masks0, dests, numMaskBits, done, g, w);
    assert Declared(port, dests, numMaskBits, w);
    FirstRuleMatches(port, gs, masks, w, 0);
    hide PortOk, SortGroups, MaskIs, RuleMatches, Declared, Ascending, FirstRule;
    var first := FirstRule(port, gs, masks, w, 0);
    if first.Some? {
      var i := first.value;
      LateGroup(port, gs, masks, base, masks0, extra, dests, numMaskBits, done, i);
      if w in gs[i] {
        OnlyGroup(port, base, masks0, dests, numMaskBits, done, gs[i], g, w, extra);
        FullRule(port, gs[i], masks, dests, numMaskBits, w);
      }
    }
  }

  lemma OnlyGroup(port: PhysPort, base: seq<Group>, masks0: Masks, dests: Dests, numMaskBits: nat, done: set<Id>,
                  h: Group, g: Group, w: Id, extra: seq<Id>)
    requires PortOk(port, base, masks0, dests, numMaskBits, done) && g in base && w in g && w in h && w !in extra
    requires h != [] && (h in base || (h == [h[0]] && h[0] in extra))
    ensures h == g
  {
    assert forall a :: a in base && a != g ==> Disjoint(a, g);
  }

  /** The groups whose smallest ID has a singleton consist of such IDs. */
  ghost predicate Covered(base: seq<Group>, extra: seq<Id>)
  {
    forall g, y :: g in base && g != [] && g[0] in extra && y in g ==> y in extra
  }

  /** All IDs are caught by groups that contain them exactly if no group has lost its rule to a singleton. */
  lemma LateIff(port: PhysPort, gs: seq<Group>, masks: Masks, base: seq<Group>, masks0: Masks, extra: seq<Id>,
                dests: Dests, numMaskBits: nat, done: set<Id>)
    requires Late(port, gs, masks, base, extra, numMaskBits) && HaveMasks(port, gs, masks)
    requires Overlapping(port, base, masks0, extra, dests, numMaskBits, done)
    ensures (forall w :: w in done || w in extra ==> Caught(port, gs, masks, w)) <==> Covered(base, extra)
  {
    hide Late, HaveMasks, PortOk, Caught, Declared;
    if Covered(base, extra) {
      forall w | w in done || w in extra
        ensures Caught(port, gs, masks, w)
      {
        if w in extra {
          ExtraCaught(port, gs, masks, base, masks0, extra, dests, numMaskBits, done, w);
        } else {
          var g := BaseGroup(port, base, masks0, dests, numMaskBits, done, w);
          BaseCaught(port, gs, masks, base, masks0, extra, dests, numMaskBits, done, g, w);
        }
      }
    } else {
      var g, y :| g in base && g != [] && g[0] in extra && y in g && y !in extra;
      BaseIds(port, base, masks0, dests, numMaskBits, done, g, y);
      BaseLost(port, gs, masks, base, masks0, extra, dests, numMaskBits, done, g, y);
    }
  }
}
