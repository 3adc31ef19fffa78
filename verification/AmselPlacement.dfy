/**
 * Where the greedy assignment puts the components of a tile: a rule for one component, the placements it
 * allows, and for which connections there is one.
 */
module AmselPlacement {
  import opened Common
  import opened PacketTypes
  import opened AmselModel
  import opened AmselComponents

  /** The components of `ports`, in the order in which the ports first reach them. */
  ghost function ComponentsIn(conns: Connections, ports: seq<Port>): (r: seq<set<Port>>)
  {
    if ports == [] then []
    else
      var n := |ports| - 1;
      var before := ComponentsIn(conns, ports[..n]);
      if exists i :: 0 <= i < |before| && ports[n] in before[i] then before
      else before + [ComponentOf(conns, ports[n])]
  }

  /** Connections whose components are to be placed, in order, on arbiters. */
  datatype Plan = Plan(conns: Connections, comps: seq<set<Port>>, numArbiters: nat, numMSels: nat)

  ghost function PlanOf(t: Tile): (p: Plan)
  {
    Plan(t.srcToDst, ComponentsIn(t.srcToDst, t.dstPorts), t.numArbiters, t.numMSels)
  }

  /** The distinct port lists on arbiter `a`, when component `i` is on arbiter `owner[i]`. */
  ghost function ListsOf(p: Plan, owner: seq<nat>, a: nat): (r: set<seq<Port>>)
    requires |owner| <= |p.comps|
  {
    set i, l | 0 <= i < |owner| && owner[i] == a && l in ListsAt(p.conns, p.comps[i]) :: l
  }

  /** The sources of a component whose port list is not `known`. */
  ghost function Newcomers(conns: Connections, comp: set<Port>, known: set<seq<Port>>): (r: set<Source>)
  {
    set s | s in conns && Touches(Bare(conns), s, comp) && PortsOf(conns[s]) !in known
  }

  /** The merge test: strict, with every source of a new list counted, in eight bits. */
  ghost predicate Room(p: Plan, owner: seq<nat>, a: nat)
    requires |owner| < |p.comps|
  {
    var known := ListsOf(p, owner, a);
    |known| + |Newcomers(p.conns, p.comps[|owner|], known)| % 256 < p.numMSels
  }

  ghost predicate Fits(p: Plan, owner: seq<nat>, a: nat)
    requires |owner| < |p.comps|
  {
    |ListsOf(p, owner, a) + ListsAt(p.conns, p.comps[|owner|])| <= p.numMSels
  }

  /** The next component goes to `a`: a fresh arbiter or, with none left, the first one with room; and it fits. */
  ghost predicate Choice(p: Plan, owner: seq<nat>, a: nat)
    requires |owner| < |p.comps|
  {
    && a < p.numArbiters
    && (if |owner| < p.numArbiters then a == |owner|
        else Room(p, owner, a) && forall b :: 0 <= b < a ==> !Room(p, owner, b))
    && Fits(p, owner, a)
  }

  ghost predicate Placement(p: Plan, owner: seq<nat>)
  {
    |owner| <= |p.comps| && forall n :: 0 <= n < |owner| ==> Choice(p, owner[..n], owner[n])
  }

  /** All components can be placed by the rule. */
  ghost predicate Placeable(p: Plan)
  {
    exists owner :: |owner| == |p.comps| && Placement(p, owner)
  }

  // ---- one placement at most

  lemma ChoiceUnique(p: Plan, owner: seq<nat>, a: nat, b: nat)
    requires |owner| < |p.comps| && Choice(p, owner, a) && Choice(p, owner, b)
    ensures a == b
  {
    hide Room, Fits;
  }

  lemma {:induction false} PlacementUnique(p: Plan, a: seq<nat>, b: seq<nat>)
    requires Placement(p, a) && Placement(p, b) && |a| <= |b|
    ensures a == b[..|a|]
    decreases |a|
  {
    hide Choice;
    if a != [] {
      var n := |a| - 1;
      PlacementPrefix(p, a, n);
      PlacementUnique(p, a[..n], b);
      assert Choice(p, a[..n], a[n]) && Choice(p, b[..n], b[n]);
      ChoiceUnique(p, a[..n], a[n], b[n]);
    }
  }

  lemma PlacementPrefix(p: Plan, owner: seq<nat>, n: nat)
    requires Placement(p, owner) && n <= |owner|
    ensures Placement(p, owner[..n])
  {
    hide Choice;
    forall m | 0 <= m < n
      ensures Choice(p, owner[..n][..m], owner[..n][m])
    {
      assert owner[..n][..m] == owner[..m];
    }
  }

  lemma PlacementNext(p: Plan, owner: seq<nat>, a: nat)
    requires Placement(p, owner) && |owner| < |p.comps| && Choice(p, owner, a)
    ensures Placement(p, owner + [a])
  {
    hide Choice;
    var after := owner + [a];
    forall m | 0 <= m < |after|
      ensures Choice(p, after[..m], after[m])
    {
      assert after[..m] == owner[..m];
      assert owner[..|owner|] == owner;
    }
  }

  lemma GoesOn(p: Plan, owner: seq<nat>, all: seq<nat>)
    requires Placement(p, owner) && Placement(p, all) && |owner| < |all|
    ensures Choice(p, owner, all[|owner|])
  {
    hide Choice;
    PlacementUnique(p, owner, all);
    assert Choice(p, all[..|owner|], all[|owner|]);
  }

  /** A placement that cannot go on shows that there is no complete one. */
  lemma StuckUnplaceable(p: Plan, owner: seq<nat>)
    requires Placement(p, owner) && |owner| < |p.comps| && forall a :: !Choice(p, owner, a)
    ensures !Placeable(p)
  {
    hide Choice;
    if Placeable(p) {
      var all :| |all| == |p.comps| && Placement(p, all);
      GoesOn(p, owner, all);
    }
  }

  /** If no placement is ever stuck, there is a complete one. */
  lemma {:induction false} NeverStuck(p: Plan, owner: seq<nat>) returns (all: seq<nat>)
    requires Placement(p, owner)
    requires forall w :: Placement(p, w) && |w| < |p.comps| ==> exists a :: Choice(p, w, a)
    ensures |all| == |p.comps| && Placement(p, all)
    decreases |p.comps| - |owner|
  {
    hide Choice;
    if |owner| == |p.comps| {
      all := owner;
    } else {
      var a :| Choice(p, owner, a);
      PlacementNext(p, owner, a);
      hide Placement;
      all := NeverStuck(p, owner + [a]);
    }
  }

  // ---- an arbiter for each component

  lemma NothingOn(p: Plan, owner: seq<nat>, a: nat)
    requires |owner| <= |p.comps| && forall i :: 0 <= i < |owner| ==> owner[i] != a
    ensures ListsOf(p, owner, a) == {}
  {
  }

  lemma {:induction false} OwnArbiters(p: Plan, owner: seq<nat>, i: nat)
    requires Placement(p, owner) && i < |owner| <= p.numArbiters
    ensures owner[i] == i
  {
    assert Choice(p, owner[..i], owner[i]);
    hide Room, Fits;
  }

  lemma OwnFits(p: Plan, owner: seq<nat>)
    requires Placement(p, owner) && |owner| < |p.comps| && |owner| < p.numArbiters
    ensures forall a :: Choice(p, owner, a) <==>
              a == |owner| && |ListsAt(p.conns, p.comps[|owner|])| <= p.numMSels
  {
    hide ListsAt, Placement;
    var n := |owner|;
    forall i | 0 <= i < n
      ensures owner[i] != n
    {
      OwnArbiters(p, owner, i);
    }
    NothingOn(p, owner, n);
    assert {} + ListsAt(p.conns, p.comps[n]) == ListsAt(p.conns, p.comps[n]);
    hide ListsOf, Room;
  }

  /** With an arbiter for each component, it is the lists of each component that decide. */
  lemma PlaceableIfEnough(p: Plan)
    requires |p.comps| <= p.numArbiters
    ensures Placeable(p) <==> forall i :: 0 <= i < |p.comps| ==> |ListsAt(p.conns, p.comps[i])| <= p.numMSels
  {
    hide ListsAt, Choice;
    if forall i :: 0 <= i < |p.comps| ==> |ListsAt(p.conns, p.comps[i])| <= p.numMSels {
      forall w | Placement(p, w) && |w| < |p.comps|
        ensures exists a :: Choice(p, w, a)
      {
        OwnFits(p, w);
        assert Choice(p, w, |w|);
      }
      var all := NeverStuck(p, []);
    }
    if Placeable(p) {
      var all :| |all| == |p.comps| && Placement(p, all);
      forall i | 0 <= i < |p.comps|
        ensures |ListsAt(p.conns, p.comps[i])| <= p.numMSels
      {
        PlacementPrefix(p, all, i);
        assert Choice(p, all[..i], all[i]);
        OwnFits(p, all[..i]);
      }
    }
  }

  // ---- few sources

  /** The sources that have destinations. */
  function Attached(conns: Connections): (r: set<Source>)
  {
    set s | s in conns && conns[s] != []
  }

  ghost predicate FewSources(conns: Connections, numArbiters: nat, numMSels: nat)
  {
    numArbiters >= 1 && |Attached(conns)| < numMSels
  }

  /** The sources on arbiter `a`. */
  ghost function SourcesOn(p: Plan, owner: seq<nat>, a: nat): (r: set<Source>)
    requires |owner| <= |p.comps|
  {
    set s, i | s in p.conns && 0 <= i < |owner| && owner[i] == a && Touches(Bare(p.conns), s, p.comps[i]) :: s
  }

  lemma {:induction false} ImageSize<S, T>(f: S -> T, a: set<S>, b: set<T>)
    requires forall y :: y in b ==> exists x :: x in a && f(x) == y
    ensures |b| <= |a|
    decreases a
  {
    if b != {} {
      var y :| y in b;
      var x :| x in a && f(x) == y;
      forall z | z in b - {y}
        ensures exists w :: w in a - {x} && f(w) == z
      {
        var w :| w in a && f(w) == z;
        assert w in a - {x};
      }
      ImageSize(f, a - {x}, b - {y});
    }
  }

  /** Pairwise disjoint, closed sets of ports. */
  ghost predicate Separate(p: Plan)
  {
    && (forall i :: 0 <= i < |p.comps| ==> PortClosed(Bare(p.conns), p.comps[i]))
    && (forall i, j :: 0 <= i < j < |p.comps| ==> p.comps[i] !! p.comps[j])
  }

  lemma OneComponentOnly(p: Plan, s: Source, i: nat, j: nat)
    requires Separate(p) && i < |p.comps| && j < |p.comps| && s in p.conns && i != j
    requires Touches(Bare(p.conns), s, p.comps[i])
    ensures !Touches(Bare(p.conns), s, p.comps[j])
  {
    var d :| d in p.conns[s] && d.physPort.port in p.comps[i];
    assert PortClosed(Bare(p.conns), p.comps[i]);
    assert forall e :: e in p.conns[s] ==> e.physPort.port in p.comps[i];
  }

  lemma ListsBySources(p: Plan, owner: seq<nat>, a: nat)
    requires |owner| <= |p.comps|
    ensures |ListsOf(p, owner, a)| <= |SourcesOn(p, owner, a)|
  {
    hide PortsOf, Touches;
    var f := s => if s in p.conns then PortsOf(p.conns[s]) else [];
    forall l | l in ListsOf(p, owner, a)
      ensures exists s :: s in SourcesOn(p, owner, a) && f(s) == l
    {
      var i :| 0 <= i < |owner| && owner[i] == a && l in ListsAt(p.conns, p.comps[i]);
      var s :| s in p.conns && Touches(Bare(p.conns), s, p.comps[i]) && l == PortsOf(p.conns[s]);
      assert s in SourcesOn(p, owner, a);
    }
    ImageSize(f, SourcesOn(p, owner, a), ListsOf(p, owner, a));
  }

  lemma ListsAtBySources(conns: Connections, comp: set<Port>)
    ensures |ListsAt(conns, comp)| <= |Newcomers(conns, comp, {})|
  {
    hide PortsOf, Touches;
    var f := s => if s in conns then PortsOf(conns[s]) else [];
    forall l | l in ListsAt(conns, comp)
      ensures exists s :: s in Newcomers(conns, comp, {}) && f(s) == l
    {
      var s :| s in conns && Touches(Bare(conns), s, comp) && l == PortsOf(conns[s]);
      assert s in Newcomers(conns, comp, {});
    }
    ImageSize(f, Newcomers(conns, comp, {}), ListsAt(conns, comp));
  }

  lemma SourceElsewhere(p: Plan, owner: seq<nat>, a: nat, s: Source)
    requires Separate(p) && |owner| < |p.comps| && s in SourcesOn(p, owner, a)
    ensures s !in Newcomers(p.conns, p.comps[|owner|], {})
  {
    var i :| 0 <= i < |owner| && owner[i] == a && Touches(Bare(p.conns), s, p.comps[i]);
    hide Touches, PortsOf, Separate;
    OneComponentOnly(p, s, i, |owner|);
  }

  /** The sources on an arbiter and those of the next component are different ones. */
  lemma TogetherFew(p: Plan, owner: seq<nat>, a: nat)
    requires Separate(p) && |owner| < |p.comps|
    ensures |SourcesOn(p, owner, a)| + |Newcomers(p.conns, p.comps[|owner|], {})| <= |Attached(p.conns)|
  {
    hide Separate;
    var x, y := SourcesOn(p, owner, a), Newcomers(p.conns, p.comps[|owner|], {});
    forall s | s in x
      ensures s !in y
    {
      SourceElsewhere(p, owner, a, s);
    }
    assert x + y <= Attached(p.conns);
    SubsetSize(x + y, Attached(p.conns));
  }

  lemma FewerNew(conns: Connections, comp: set<Port>, known: set<seq<Port>>)
    ensures |Newcomers(conns, comp, known)| <= |Newcomers(conns, comp, {})|
  {
    hide PortsOf, Touches;
    SubsetSize(Newcomers(conns, comp, known), Newcomers(conns, comp, {}));
  }

  lemma FewFit(p: Plan, owner: seq<nat>, a: nat)
    requires Separate(p) && FewSources(p.conns, p.numArbiters, p.numMSels) && |owner| < |p.comps|
    ensures Room(p, owner, a) && Fits(p, owner, a)
  {
    hide ListsOf, ListsAt, SourcesOn, Newcomers, Attached, Separate;
    var comp := p.comps[|owner|];
    var known := ListsOf(p, owner, a);
    ListsBySources(p, owner, a);
    ListsAtBySources(p.conns, comp);
    TogetherFew(p, owner, a);
    FewerNew(p.conns, comp, known);
    UnionSize(known, ListsAt(p.conns, comp));
  }

  lemma UnionSize<T>(a: set<T>, b: set<T>)
    ensures |a + b| <= |a| + |b|
  {
    assert a + b == a + (b - a);
    SubsetSize(b - a, b);
  }

  /** Fewer sources than msels, and an arbiter: everything can be placed, whatever the components are. */
  lemma PlaceableIfFew(p: Plan)
    requires Separate(p) && FewSources(p.conns, p.numArbiters, p.numMSels)
    ensures Placeable(p)
  {
    hide Separate, Room, Fits;
    forall w | Placement(p, w) && |w| < |p.comps|
      ensures exists a :: Choice(p, w, a)
    {
      var a := if |w| < p.numArbiters then |w| else 0;
      FewFit(p, w, a);
      assert Choice(p, w, a);
    }
    var all := NeverStuck(p, []);
  }

  // ---- the outcome

  /**
   * The outcome for a tile, by its connections: success if and only if its components can be placed by the
   * rule. With an arbiter for each component, that is if no component has more lists than msels; and
   * fewer sources than msels always suffice.
   */
  ghost predicate Decided(t: Tile, ok: bool)
  {
    && (ok <==> Placeable(PlanOf(t)))
    && (!TooManyComponents(t.srcToDst, t.numArbiters) ==> (ok <==> !TooManyLists(t.srcToDst, t.numMSels)))
    && (FewSources(t.srcToDst, t.numArbiters, t.numMSels) ==> ok)
  }

  lemma SeparateComponents(t: Tile, groups: seq<seq<Source>>)
    requires GroupsOk(t, groups, PlanOf(t).comps, t.dstPortToIds.Keys)
    ensures Separate(PlanOf(t))
  {
    var comps := PlanOf(t).comps;
    hide ComponentsIn;
    forall i | 0 <= i < |comps|
      ensures PortClosed(Bare(t.srcToDst), comps[i])
    {
      assert IsGroup(t, groups[i], comps[i]);
      BareClosed(t, comps[i]);
    }
  }

  lemma OutcomeDecided(t: Tile, groups: seq<seq<Source>>, owner: seq<nat>, ok: bool)
    requires Consistent(t) && GroupsOk(t, groups, PlanOf(t).comps, t.dstPortToIds.Keys)
    requires Placement(PlanOf(t), owner) && (ok <==> |owner| == |PlanOf(t).comps|)
    requires !ok ==> forall a :: !Choice(PlanOf(t), owner, a)
    ensures Decided(t, ok)
  {
    hide Consistent, GroupsOk, Components, ListsAt, PlanOf, Separate, Choice;
    var p := PlanOf(t);
    if ok {
      assert Placeable(p);
    } else {
      StuckUnplaceable(p, owner);
    }
    hide Placeable, Placement;
    SeparateComponents(t, groups);
    PlanFields(t);
    if FewSources(t.srcToDst, t.numArbiters, t.numMSels) {
      PlaceableIfFew(p);
    }
    GroupsAreComponents(t, groups, p.comps);
    GroupsMatch(t, groups);
    if |p.comps| <= p.numArbiters {
      PlaceableIfEnough(p);
      forall c | c in Components(t.srcToDst)
        ensures exists i :: 0 <= i < |p.comps| && p.comps[i] == c
      {
        assert c in p.comps;
      }
    }
  }

  /** The plan is for the connections and the switch of this tile. */
  predicate PlanFor(p: Plan, t: Tile)
  {
    p.conns == t.srcToDst && p.numArbiters == t.numArbiters && p.numMSels == t.numMSels
  }

  lemma PlanFields(t: Tile)
    ensures PlanFor(PlanOf(t), t)
  {
  }

  lemma GroupsMatch(t: Tile, groups: seq<seq<Source>>)
    requires GroupsOk(t, groups, PlanOf(t).comps, t.dstPortToIds.Keys)
    ensures |groups| == |PlanOf(t).comps|
  {
    hide PlanOf, IsGroup;
  }

  // ---- the generators follow the rule

  /** The generators in use hold the lists of the components placed on them. */
  ghost predicate Filled(p: Plan, gens: seq<MSels>, owner: seq<nat>)
    requires |owner| <= |p.comps|
  {
    && |gens| == (if |owner| < p.numArbiters then |owner| else p.numArbiters)
    && (forall a :: 0 <= a < |gens| ==> gens[a].connectionToMSel.Keys == ListsOf(p, owner, a))
  }

  lemma ListsOfNext(p: Plan, owner: seq<nat>, b: nat, a: nat)
    requires |owner| < |p.comps|
    ensures ListsOf(p, owner + [b], a) ==
            ListsOf(p, owner, a) + if a == b then ListsAt(p.conns, p.comps[|owner|]) else {}
  {
    hide ListsAt;
    var after := owner + [b];
    forall l | l in ListsOf(p, owner, a)
      ensures l in ListsOf(p, after, a)
    {
      var i :| 0 <= i < |owner| && owner[i] == a && l in ListsAt(p.conns, p.comps[i]);
      assert after[i] == a;
    }
    assert after[|owner|] == b;
  }

  lemma FilledNew(p: Plan, gens: seq<MSels>, owner: seq<nat>, g: MSels)
    requires |owner| < |p.comps| && Filled(p, gens, owner) && |gens| < p.numArbiters && Placement(p, owner)
    requires g.connectionToMSel.Keys == ListsAt(p.conns, p.comps[|owner|])
    ensures |gens| == |owner| && Filled(p, gens + [g], owner + [|gens|])
  {
    hide ListsAt, ListsOf, Placement;
    var n := |owner|;
    forall i | 0 <= i < n
      ensures owner[i] != n
    {
      OwnArbiters(p, owner, i);
    }
    NothingOn(p, owner, n);
    assert {} + ListsAt(p.conns, p.comps[n]) == ListsAt(p.conns, p.comps[n]);
    forall a | 0 <= a <= n
      ensures (gens + [g])[a].connectionToMSel.Keys == ListsOf(p, owner + [n], a)
    {
      ListsOfNext(p, owner, n, a);
    }
  }

  lemma FilledMerged(p: Plan, gens: seq<MSels>, owner: seq<nat>, b: nat, g: MSels)
    requires |owner| < |p.comps| && Filled(p, gens, owner) && b < |gens| == p.numArbiters
    requires g.connectionToMSel.Keys == gens[b].connectionToMSel.Keys + ListsAt(p.conns, p.comps[|owner|])
    ensures Filled(p, gens[b := g], owner + [b])
  {
    hide ListsAt, ListsOf;
    forall a | 0 <= a < |gens|
      ensures gens[b := g][a].connectionToMSel.Keys == ListsOf(p, owner + [b], a)
    {
      ListsOfNext(p, owner, b, a);
    }
  }

  /** The sources of `group` whose list is not known. */
  ghost function NewIn(t: Tile, known: map<seq<Port>, nat>, group: seq<Source>): (r: set<Source>)
    requires forall s :: s in group ==> s in t.srcToDst
  {
    set s | s in group && PortsOf(t.srcToDst[s]) !in known
  }

  lemma NewInNext(t: Tile, known: map<seq<Port>, nat>, rest: seq<Source>, s: Source)
    requires s in t.srcToDst && s !in rest && forall r :: r in rest ==> r in t.srcToDst
    ensures |NewIn(t, known, rest + [s])| ==
            |NewIn(t, known, rest)| + if PortsOf(t.srcToDst[s]) in known then 0 else 1
  {
    hide PortsOf;
    var more := if PortsOf(t.srcToDst[s]) in known then {} else {s};
    assert NewIn(t, known, rest + [s]) == NewIn(t, known, rest) + more;
  }

  lemma {:induction false} CountNewIn(t: Tile, known: map<seq<Port>, nat>, group: seq<Source>)
    requires NoDup(group) && forall s :: s in group ==> s in t.srcToDst
    ensures NewConnections(t, known, group) == |NewIn(t, known, group)|
    decreases |group|
  {
    hide PortsOf;
    if group == [] {
      assert NewIn(t, known, group) == {};
    } else {
      hide NewIn;
      var last := |group| - 1;
      CountNewIn(t, known, group[..last]);
      assert group == group[..last] + [group[last]];
      NewInNext(t, known, group[..last], group[last]);
    }
  }

  lemma CountNew(t: Tile, known: map<seq<Port>, nat>, group: seq<Source>, comp: set<Port>)
    requires IsGroup(t, group, comp)
    ensures (forall s :: s in group ==> s in t.srcToDst)
    ensures NewConnections(t, known, group) == |Newcomers(t.srcToDst, comp, known.Keys)|
  {
    CountNewIn(t, known, group);
    hide NewConnections, PortsOf, NoDup;
    forall s | s in t.srcToDst
      ensures Touches(t, s, comp) <==> Touches(Bare(t.srcToDst), s, comp)
    {
      BareTouches(t, s, comp);
    }
    hide Touches;
    assert NewIn(t, known, group) == Newcomers(t.srcToDst, comp, known.Keys);
  }

  lemma RoomIff(t: Tile, p: Plan, g: MSels, group: seq<Source>, owner: seq<nat>, a: nat)
    requires PlanFor(p, t) && |owner| < |p.comps| && IsGroup(t, group, p.comps[|owner|]) && MSelsOk(g)
    requires g.connectionToMSel.Keys == ListsOf(p, owner, a)
    ensures forall s :: s in group ==> s in t.srcToDst
    ensures HasRoom(t, g, group) <==> Room(p, owner, a)
  {
    CountNew(t, g.connectionToMSel, group, p.comps[|owner|]);
    assert |g.connectionToMSel| == |g.connectionToMSel.Keys|;
    hide IsGroup, NewConnections, ListsOf, Newcomers;
  }

  lemma NoChoice(p: Plan, owner: seq<nat>, a: nat)
    requires |owner| < |p.comps| && p.numArbiters <= |owner| && a <= p.numArbiters
    requires forall b :: 0 <= b < a ==> !Room(p, owner, b)
    requires a < p.numArbiters ==> Room(p, owner, a) && !Fits(p, owner, a)
    ensures forall b :: !Choice(p, owner, b)
  {
    hide Room, Fits;
  }
}
