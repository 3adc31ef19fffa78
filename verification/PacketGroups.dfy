/**
 * Compiling the packet IDs of a slave port into an ordered list of mask rules: greedy merging of
 * IDs with equal destinations, verification of the merged list, rollback to a singleton.
 *
 * A mask word is the set of its one bits, so `id & mask` keeps the bits of `id` at these positions.
 */
module PacketGroups {
  import opened Common
  import opened PacketTypes

  /** A `std::set` of IDs: strictly ascending, so its first element is the set's minimum. */
  type Group = seq<Id>

  type Mask = set<nat>

  type Masks = map<PhysPortAndID, Mask>

  type Dests = map<PhysPortAndID, set<PhysPort>>

  datatype Emitted = Emitted(groups: map<PhysPort, seq<Group>>, masks: Masks)

  // ---- masks

  /** The `i`-th bit of an ID, counting from the least significant one. */
  predicate Bit(id: Id, i: nat)
  {
    if i == 0 then id % 2 == 1 else Bit(id / 2, i - 1)
  }

  /** `(x & m) == (y & m)`. */
  predicate MaskedEqual(x: Id, y: Id, m: Mask)
  {
    forall i :: i in m ==> Bit(x, i) == Bit(y, i)
  }

  /** `(1 << numMaskBits) - 1`. */
  function Full(numMaskBits: nat): (m: Mask)
    ensures forall i: nat :: i in m <==> i < numMaskBits
  {
    if numMaskBits == 0 then {} else Full(numMaskBits - 1) + {numMaskBits - 1}
  }

  /** The mask bits on which all IDs agree with the first one. */
  function MaskOf(ids: seq<Id>, firstId: Id, numMaskBits: nat): (m: Mask)
  {
    set i | 0 <= i < numMaskBits && forall k :: 0 <= k < |ids| ==> Bit(ids[k], i) == Bit(firstId, i)
  }

  function GroupMask(g: Group, numMaskBits: nat): (m: Mask)
    requires g != []
  {
    MaskOf(g, g[0], numMaskBits)
  }

  /** Every member of a group satisfies the group's rule. */
  lemma MemberMatches(g: Group, numMaskBits: nat, x: Id)
    requires g != [] && x in g
    ensures MaskedEqual(x, g[0], GroupMask(g, numMaskBits))
  {
  }

  /** IDs below 2^n that agree on the low n bits are equal. */
  lemma {:induction false} BitsDetermine(x: Id, y: Id, n: nat)
    requires x < Pow2(n) && y < Pow2(n)
    requires forall i :: 0 <= i < n ==> Bit(x, i) == Bit(y, i)
    ensures x == y
  {
    if n > 0 {
      assert Bit(x, 0) == Bit(y, 0);
      forall i | 0 <= i < n - 1
        ensures Bit(x / 2, i) == Bit(y / 2, i)
      {
        assert Bit(x, i + 1) == Bit(y, i + 1);
      }
      BitsDetermine(x / 2, y / 2, n - 1);
    }
  }

  /** A singleton's rule matches only its own ID. */
  lemma SingletonMatches(x: Id, y: Id, numMaskBits: nat)
    requires x < Pow2(numMaskBits) && y < Pow2(numMaskBits)
    ensures MaskedEqual(y, x, GroupMask([x], numMaskBits)) <==> x == y
  {
    var m := GroupMask([x], numMaskBits);
    if MaskedEqual(y, x, m) {
      forall i | 0 <= i < numMaskBits
        ensures Bit(y, i) == Bit(x, i)
      {
        assert i in m;
      }
      BitsDetermine(x, y, numMaskBits);
    }
  }

  /** Storing a group's mask under each of its members. */
  function UpdatedMasks(port: PhysPort, g: Group, masks: Masks, numMaskBits: nat): (r: Masks)
    ensures forall k :: k in r <==> k in masks || (k.physPort == port && k.id in g)
    ensures forall k :: k in r ==>
              r[k] == if k.physPort == port && k.id in g then GroupMask(g, numMaskBits) else masks[k]
  {
    if g == [] then masks
    else masks + map id | id in g :: PhysPortAndID(port, id) := GroupMask(g, numMaskBits)
  }

  method UpdateGroupMask(port: PhysPort, g: Group, masks: Masks, numMaskBits: nat) returns (r: Masks)
    ensures r == UpdatedMasks(port, g, masks, numMaskBits)
  {
    if g == [] { return masks; }
    var mask := Full(numMaskBits);
    var firstId := g[0];
    for i := 0 to |g|
      invariant mask == MaskOf(g[..i], firstId, numMaskBits)
    {
      mask := set k | k in mask && Bit(g[i], k) == Bit(firstId, k);
    }
    assert g[..|g|] == g;
    r := StoreMask(port, g, masks, mask);
    assert r == UpdatedMasks(port, g, masks, numMaskBits);
  }

  method StoreMask(port: PhysPort, g: Group, masks: Masks, mask: Mask) returns (r: Masks)
    ensures forall k :: k in r <==> k in masks || (k.physPort == port && k.id in g)
    ensures forall k :: k in r ==> r[k] == if k.physPort == port && k.id in g then mask else masks[k]
  {
    r := masks;
    for i := 0 to |g|
      invariant forall k :: k in r <==> k in masks || (k.physPort == port && k.id in g[..i])
      invariant forall k :: k in r ==> r[k] == if k.physPort == port && k.id in g[..i] then mask else masks[k]
    {
      r := r[PhysPortAndID(port, g[i]) := mask];
    }
    assert g[..|g|] == g;
  }

  // ---- order of groups

  predicate LexLess(a: Group, b: Group)
  {
    if b == [] then false
    else if a == [] then true
    else a[0] < b[0] || (a[0] == b[0] && LexLess(a[1..], b[1..]))
  }

  /** Smaller groups first, then lexicographically. */
  predicate GroupLess(a: Group, b: Group)
  {
    if |a| != |b| then |a| < |b| else LexLess(a, b)
  }

  lemma {:induction false} LexTotal(a: Group, b: Group)
    ensures !(LexLess(a, b) && LexLess(b, a)) && (LexLess(a, b) || LexLess(b, a) || a == b)
  {
    if a != [] && b != [] {
      LexTotal(a[1..], b[1..]);
      assert a == [a[0]] + a[1..] && b == [b[0]] + b[1..];
    }
  }

  lemma {:induction false} LexTransitive(a: Group, b: Group, c: Group)
    requires LexLess(a, b) && LexLess(b, c)
    ensures LexLess(a, c)
  {
    if a != [] {
      if a[0] == b[0] == c[0] {
        LexTransitive(a[1..], b[1..], c[1..]);
      }
    }
  }

  lemma LessTotal(a: Group, b: Group)
    ensures !(GroupLess(a, b) && GroupLess(b, a)) && (GroupLess(a, b) || GroupLess(b, a) || a == b)
  {
    LexTotal(a, b);
  }

  lemma LessTransitive(a: Group, b: Group, c: Group)
    requires GroupLess(a, b) && GroupLess(b, c)
    ensures GroupLess(a, c)
  {
    if |a| == |b| == |c| {
      LexTransitive(a, b, c);
    }
  }

  ghost predicate Sorted(gs: seq<Group>)
  {
    forall i, j :: 0 <= i < j < |gs| ==> !GroupLess(gs[j], gs[i])
  }

  function Insert(g: Group, gs: seq<Group>): (r: seq<Group>)
    ensures multiset(r) == multiset(gs) + multiset{g}
  {
    if gs == [] then [g]
    else if GroupLess(gs[0], g) then
      assert gs == [gs[0]] + gs[1..];
      [gs[0]] + Insert(g, gs[1..])
    else
      [g] + gs
  }

  /** The sorted arrangement of the groups (unique, since the order is total). */
  function SortGroups(gs: seq<Group>): (r: seq<Group>)
    ensures multiset(r) == multiset(gs)
  {
    if gs == [] then []
    else
      assert gs == [gs[0]] + gs[1..];
      Insert(gs[0], SortGroups(gs[1..]))
  }

  lemma {:induction false} InsertSorted(g: Group, gs: seq<Group>)
    requires Sorted(gs)
    ensures Sorted(Insert(g, gs))
  {
    if gs != [] {
      if GroupLess(gs[0], g) {
        InsertSorted(g, gs[1..]);
        var r := Insert(g, gs[1..]);
        forall x | x in r
          ensures !GroupLess(x, gs[0])
        {
          assert x in multiset(r);
          assert x in gs[1..] || x == g;
          LessTotal(gs[0], g);
        }
      } else {
        forall j | 0 <= j < |gs|
          ensures !GroupLess(gs[j], g)
        {
          if GroupLess(gs[j], g) {
            LessTotal(gs[0], gs[j]);
            if gs[0] != gs[j] {
              LessTransitive(gs[0], gs[j], g);
            }
          }
        }
      }
    }
  }

  lemma {:induction false} SortSorted(gs: seq<Group>)
    ensures Sorted(SortGroups(gs))
  {
    if gs != [] {
      SortSorted(gs[1..]);
      InsertSorted(gs[0], SortGroups(gs[1..]));
    }
  }

  /** Sorting has one result, whatever algorithm computes it. */
  lemma {:induction false} SortedUnique(a: seq<Group>, b: seq<Group>)
    requires Sorted(a) && Sorted(b) && multiset(a) == multiset(b)
    ensures a == b
    decreases |a|
  {
    hide GroupLess;
    assert |a| == |multiset(a)| == |multiset(b)| == |b|;
    if a != [] {
      assert a[0] in multiset(b) && b[0] in multiset(a);
      SortedHead(a, b[0]);
      SortedHead(b, a[0]);
      LessTotal(a[0], b[0]);
      TailMultiset(a);
      TailMultiset(b);
      SortedUnique(a[1..], b[1..]);
    }
  }

  lemma SortedHead(a: seq<Group>, x: Group)
    requires Sorted(a) && x in a
    ensures !GroupLess(x, a[0])
  {
    LessTotal(x, x);
    hide GroupLess;
  }

  lemma TailMultiset(a: seq<Group>)
    requires a != []
    ensures multiset(a[1..]) == multiset(a) - multiset{a[0]} && a == [a[0]] + a[1..]
  {
    assert a == [a[0]] + a[1..];
  }

  // ---- one slave port

  /** The rule of group `g` at `port`: masked compare with the group's smallest ID. */
  predicate RuleMatches(port: PhysPort, g: Group, masks: Masks, x: Id)
    requires g != [] && PhysPortAndID(port, g[0]) in masks
  {
    MaskedEqual(x, g[0], masks[PhysPortAndID(port, g[0])])
  }

  ghost predicate HaveMasks(port: PhysPort, gs: seq<Group>, masks: Masks)
  {
    forall i :: 0 <= i < |gs| ==> gs[i] != [] && PhysPortAndID(port, gs[i][0]) in masks
  }

  /** No ID of a later group matches an earlier group's rule. */
  ghost predicate NoShadowing(port: PhysPort, gs: seq<Group>, masks: Masks)
    requires HaveMasks(port, gs, masks)
  {
    forall i, j, x :: 0 <= i < j < |gs| && x in gs[j] ==> !RuleMatches(port, gs[i], masks, x)
  }

  method VerifyGroupsByMask(port: PhysPort, gs: seq<Group>, masks: Masks) returns (ok: bool)
    requires HaveMasks(port, gs, masks)
    ensures ok <==> NoShadowing(port, gs, masks)
  {
    for i := 0 to |gs|
      invariant forall a, j, x :: 0 <= a < i && a < j < |gs| && x in gs[j] ==> !RuleMatches(port, gs[a], masks, x)
    {
      for j := i + 1 to |gs|
        invariant forall b, x :: i < b < j && x in gs[b] ==> !RuleMatches(port, gs[i], masks, x)
      {
        for k := 0 to |gs[j]|
          invariant forall c :: 0 <= c < k ==> !RuleMatches(port, gs[i], masks, gs[j][c])
        {
          if RuleMatches(port, gs[i], masks, gs[j][k]) {
            assert gs[j][k] in gs[j];
            return false;
          }
        }
      }
    }
    return true;
  }

  /** Equal sizes and containment, as the source compares two destination sets. */
  predicate SameDests(a: set<PhysPort>, b: set<PhysPort>)
  {
    |a| == |b| && forall d :: d in a ==> d in b
  }

  lemma SameDestsEqual(a: set<PhysPort>, b: set<PhysPort>)
    ensures SameDests(a, b) <==> a == b
  {
    if SameDests(a, b) {
      assert a <= b;
      var rest := b - a;
      assert b == a + rest && |b| == |a| + |rest|;
    }
  }

  ghost predicate InDests(port: PhysPort, gs: seq<Group>, dests: Dests)
  {
    forall i :: 0 <= i < |gs| ==> gs[i] != [] && PhysPortAndID(port, gs[i][0]) in dests
  }

  /** The first group, from index `i`, whose destinations equal those of `x`; `|gs|` if there is none. */
  ghost function FirstMatch(port: PhysPort, x: Id, gs: seq<Group>, dests: Dests, i: nat): (k: nat)
    requires PhysPortAndID(port, x) in dests && InDests(port, gs, dests) && i <= |gs|
    ensures i <= k <= |gs|
    ensures k < |gs| ==> dests[PhysPortAndID(port, gs[k][0])] == dests[PhysPortAndID(port, x)]
    ensures forall j :: i <= j < k ==> dests[PhysPortAndID(port, gs[j][0])] != dests[PhysPortAndID(port, x)]
    decreases |gs| - i
  {
    if i == |gs| then i
    else if dests[PhysPortAndID(port, gs[i][0])] == dests[PhysPortAndID(port, x)] then i
    else FirstMatch(port, x, gs, dests, i + 1)
  }

  /** Set insertion: the ascending sequence with `x` added unless it is there. */
  function InsertId(g: Group, x: Id): (r: Group)
    ensures r != [] && forall y :: y in r <==> y in g || y == x
  {
    if g == [] then [x]
    else if x < g[0] then [x] + g
    else if x == g[0] then g
    else
      assert g == [g[0]] + g[1..];
      [g[0]] + InsertId(g[1..], x)
  }

  /** Processing one work-list entry of `port`: merge if the merged list verifies, else a new singleton. */
  ghost function AddId(port: PhysPort, x: Id, gs: seq<Group>, masks: Masks, dests: Dests, numMaskBits: nat)
    : (r: (seq<Group>, Masks))
    requires PhysPortAndID(port, x) in dests && InDests(port, gs, dests) && HaveMasks(port, gs, masks)
  {
    var k := FirstMatch(port, x, gs, dests, 0);
    if k < |gs| then
      var merged := Merged(port, x, gs, masks, numMaskBits, k);
      if HaveMasks(port, merged.0, merged.1) && NoShadowing(port, merged.0, merged.1) then merged
      else NewGroup(port, x, gs, UpdatedMasks(port, gs[k], merged.1, numMaskBits), numMaskBits)
    else NewGroup(port, x, gs, masks, numMaskBits)
  }

  function Merged(port: PhysPort, x: Id, gs: seq<Group>, masks: Masks, numMaskBits: nat,
                  k: nat): (r: (seq<Group>, Masks))
    requires k < |gs|
  {
    var group := InsertId(gs[k], x);
    (SortGroups(gs[k := group]), UpdatedMasks(port, group, masks, numMaskBits))
  }

  function NewGroup(port: PhysPort, x: Id, gs: seq<Group>, masks: Masks, numMaskBits: nat): (r: (seq<Group>, Masks))
  {
    (SortGroups(gs + [[x]]), UpdatedMasks(port, [x], masks, numMaskBits))
  }

  lemma MergedMasks(port: PhysPort, x: Id, gs: seq<Group>, masks: Masks, numMaskBits: nat, k: nat)
    requires HaveMasks(port, gs, masks) && k < |gs|
    ensures var m := Merged(port, x, gs, masks, numMaskBits, k); HaveMasks(port, m.0, m.1)
  {
    var group := InsertId(gs[k], x);
    var gs1 := gs[k := group];
    var m := Merged(port, x, gs, masks, numMaskBits, k);
    forall i | 0 <= i < |m.0|
      ensures m.0[i] != [] && PhysPortAndID(port, m.0[i][0]) in m.1
    {
      assert m.0[i] in multiset(m.0);
      assert m.0[i] in gs1;
    }
  }

  method AddSlave(port: PhysPort, x: Id, gs: seq<Group>, masks: Masks, dests: Dests, numMaskBits: nat)
    returns (gs': seq<Group>, masks': Masks)
    requires PhysPortAndID(port, x) in dests && InDests(port, gs, dests) && HaveMasks(port, gs, masks)
    ensures (gs', masks') == AddId(port, x, gs, masks, dests, numMaskBits)
  {
    var k := 0;
    while k < |gs|
      invariant 0 <= k <= |gs|
      invariant FirstMatch(port, x, gs, dests, 0) == FirstMatch(port, x, gs, dests, k)
    {
      var d1, d2 := dests[PhysPortAndID(port, x)], dests[PhysPortAndID(port, gs[k][0])];
      SameDestsEqual(d1, d2);
      if |d1| == |d2| && forall d :: d in d1 ==> d in d2 { break; }
      k := k + 1;
    }
    masks' := masks;
    if k < |gs| {
      var group := InsertId(gs[k], x);
      masks' := UpdateGroupMask(port, group, masks, numMaskBits);
      gs' := SortGroups(gs[k := group]);
      MergedMasks(port, x, gs, masks, numMaskBits, k);
      var ok := VerifyGroupsByMask(port, gs', masks');
      if ok { return; }
      masks' := UpdateGroupMask(port, gs[k], masks', numMaskBits);
    }
    masks' := UpdateGroupMask(port, [x], masks', numMaskBits);
    gs' := SortGroups(gs + [[x]]);
  }
}
