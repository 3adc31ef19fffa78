/** The generators of (arbiter, msel) pairs: of one arbiter, of one tile and of all tiles. */
module AmselGenerator {
  import opened Common
  import opened PacketTypes
  import opened AmselModel
  import opened AmselComponents
  import opened AmselPlacement

  // ---- one arbiter

  class MSelGenerator {
    const numMSels: nat
    var curMSel: nat
    var srcs: seq<Source>
    var connectionToMSel: map<seq<Port>, nat>
    var physPortToConnection: map<Source, seq<Port>>

    function State(): (g: MSels)
      reads this
    {
      MSels(numMSels, curMSel, srcs, connectionToMSel, physPortToConnection)
    }

    constructor (numMSels: nat)
      ensures State() == MSels(numMSels, 0, [], map[], map[])
    {
      this.numMSels := numMSels;
      curMSel, srcs, connectionToMSel, physPortToConnection := 0, [], map[], map[];
    }

    method AddConnection(src: Source, dsts: seq<PhysPortAndID>) returns (ok: bool)
      modifies this
      ensures ok == WithConnection(old(State()), src, PortsOf(dsts)).Some?
      ensures State() == if ok then WithConnection(old(State()), src, PortsOf(dsts)).value else old(State())
    {
      var key := PortsOf(dsts);
      if key !in connectionToMSel {
        if curMSel >= numMSels { return false; }
        connectionToMSel := connectionToMSel[key := curMSel];
        curMSel := curMSel + 1;
      }
      physPortToConnection := physPortToConnection[src := key];
      srcs := srcs + [src];
      return true;
    }

    /** Succeeds exactly if the msels suffice for all distinct lists. */
    method AddConnections(t: Tile, group: seq<Source>) returns (ok: bool)
      requires MSelsOk(State()) && forall s :: s in group ==> s in t.srcToDst
      modifies this
      ensures ok <==> |old(State()).connectionToMSel.Keys + KeysOf(t, group)| <= numMSels
      ensures ok ==> Extended(t, group, old(State()), State())
    {
      StartExtending(t, State());
      for k := 0 to |group|
        invariant Extended(t, group[..k], old(State()), State())
      {
        hide Extended, MSelsOk, KeysOf, PortsOf;
        ghost var before := State();
        var added := AddConnection(group[k], t.srcToDst[group[k]]);
        if !added {
          ExtendFails(t, group, k, old(State()), before);
          return false;
        }
        ExtendNext(t, group, k, old(State()), before);
      }
      assert group[..|group|] == group;
      hide KeysOf;
      return true;
    }

    /** The msels this generator would still have to hand out, counted in eight bits. */
    method NumMSelsForConnections(t: Tile, group: seq<Source>) returns (n: nat)
      requires forall s :: s in group ==> s in t.srcToDst
      ensures n == NewConnections(t, connectionToMSel, group) % 256
    {
      n := 0;
      for k := 0 to |group|
        invariant n == NewConnections(t, connectionToMSel, group[..k]) % 256
      {
        assert group[..k + 1][..k] == group[..k];
        if PortsOf(t.srcToDst[group[k]]) !in connectionToMSel {
          n := (n + 1) % 256;
        }
      }
      assert group[..|group|] == group;
    }
  }

  // ---- one tile

  class TileAMSelGenerator {
    const numArbiters: nat
    const numMSels: nat
    var dstPorts: seq<Port>
    var dstPortToIds: map<Port, seq<PhysPortAndID>>
    var srcToDst: map<Source, seq<PhysPortAndID>>
    var dstToSrc: map<PhysPortAndID, seq<Source>>
    var portsToAMSels: Amsels

    function State(): (t: Tile)
      reads this
    {
      Tile(numArbiters, numMSels, dstPorts, dstPortToIds, srcToDst, dstToSrc)
    }

    constructor (numArbiters: nat, numMSels: nat)
      ensures State() == EmptyTile(numArbiters, numMSels) && portsToAMSels == map[]
      ensures Consistent(State())
    {
      this.numArbiters, this.numMSels := numArbiters, numMSels;
      dstPorts, dstPortToIds, srcToDst, dstToSrc, portsToAMSels := [], map[], map[], map[], map[];
    }

    method AddConnection(src: Source, dsts: seq<PhysPortAndID>)
      modifies this
      ensures State() == AddedAll(old(State()), src, dsts) && portsToAMSels == old(portsToAMSels)
    {
      ghost var all := Get(srcToDst, src) + dsts;
      srcToDst := srcToDst[src := Get(srcToDst, src) + dsts];
      AddedAllSources(old(State()), src, dsts[..0]);
      for k := 0 to |dsts|
        invariant State() == AddedAll(old(State()), src, dsts[..k]).(srcToDst := old(srcToDst)[src := all])
        invariant portsToAMSels == old(portsToAMSels)
      {
        var d := dsts[k];
        assert dsts[..k + 1][..k] == dsts[..k];
        dstToSrc := dstToSrc[d := Get(dstToSrc, d) + [src]];
        dstPortToIds := dstPortToIds[d.physPort.port := Get(dstPortToIds, d.physPort.port) + [d]];
        dstPorts := dstPorts + [d.physPort.port];
      }
      assert dsts[..|dsts|] == dsts;
      AddedAllSources(old(State()), src, dsts);
    }

    method GetAMSel(port: PhysPortAndID) returns (r: Option<(nat, nat)>)
      ensures r == if port in portsToAMSels then Some(portsToAMSels[port]) else None
    {
      if port in portsToAMSels { return Some(portsToAMSels[port]); }
      return None;
    }

    /**
     * Success is a solution; nothing but the pairs changes. It succeeds exactly if the rule can place all
     * components; the connections alone tell when it can.
     */
    method Solve() returns (ok: bool)
      requires Consistent(State())
      modifies this
      ensures State() == old(State())
      ensures ok ==> Solved(State(), portsToAMSels)
      ensures Decided(State(), ok)
    {
      portsToAMSels := map[];
      var t := State();
      hide GroupsOk, Consistent, Assigned, Decided, Placement, Choice, PlanOf;
      var groups := CollectGroups(t);
      ghost var comps := PlanOf(t).comps;
      var gens;
      ghost var owner;
      PlanFields(t);
      ok, gens, owner := AssignArbiters(t, groups, PlanOf(t));
      OutcomeDecided(t, groups, owner, ok);
      if ok {
        portsToAMSels := Retrieve(gens);
        AssignmentSolves(t, groups, comps, t.dstPortToIds.Keys, States(gens), owner, portsToAMSels);
      }
    }
  }

  // ---- all tiles

  class AMSelGenerator {
    var tiles: map<TileLoc, TileAMSelGenerator>

    /** Every tile has a generator of its own, with consistent indexes. */
    ghost predicate Valid()
      reads this, tiles.Values
    {
      && (forall a, b :: a in tiles && b in tiles && a != b ==> tiles[a] != tiles[b])
      && (forall a :: a in tiles ==> Consistent(tiles[a].State()))
    }

    ghost function States(): (r: map<TileLoc, Tile>)
      reads this, tiles.Values
      ensures r.Keys == tiles.Keys
    {
      map a | a in tiles :: tiles[a].State()
    }

    ghost function Pairs(): (r: map<TileLoc, Amsels>)
      reads this, tiles.Values
      ensures r.Keys == tiles.Keys
    {
      map a | a in tiles :: tiles[a].portsToAMSels
    }

    constructor ()
      ensures Valid() && tiles == map[] && States() == map[]
    {
      tiles := map[];
    }

    method InitTileIfNotExists(loc: TileLoc, numArbiters: nat, numMSels: nat)
      requires Valid()
      modifies this
      ensures Valid() && fresh(tiles.Values - old(tiles.Values))
      ensures States() == if loc in old(States()) then old(States())
                          else old(States())[loc := EmptyTile(numArbiters, numMSels)]
    {
      if loc !in tiles {
        hide Consistent;
        var g := new TileAMSelGenerator(numArbiters, numMSels);
        assert g !in tiles.Values && Valid() && States() == old(States());
        hide Valid;
        Register(loc, g);
      }
    }

    method Register(loc: TileLoc, g: TileAMSelGenerator)
      requires Valid() && loc !in tiles && g !in tiles.Values && Consistent(g.State())
      modifies this
      ensures Valid() && tiles == old(tiles)[loc := g]
      ensures States() == old(States())[loc := g.State()]
    {
      hide Consistent;
      tiles := tiles[loc := g];
      assert forall a :: a in old(tiles) ==> tiles[a] == old(tiles)[a] && old(tiles)[a] in old(tiles).Values;
    }

    method AddConnection(loc: TileLoc, src: Source, dsts: seq<PhysPortAndID>) returns (ok: bool)
      requires Valid() && src.physPort.dir == SRC
      requires forall k :: 0 <= k < |dsts| ==> dsts[k].physPort.dir == DST
      modifies tiles.Values
      ensures Valid() && ok == (loc in old(States()))
      ensures States() == if ok then old(States())[loc := AddedAll(old(States())[loc], src, dsts)] else old(States())
    {
      hide Consistent, AddedAll;
      if loc !in tiles { return false; }
      AddedAllOk(tiles[loc].State(), src, dsts);
      tiles[loc].AddConnection(src, dsts);
      forall a | a in tiles && a != loc ensures tiles[a].State() == old(tiles[a].State()) { }
      return true;
    }

    method GetAMSel(loc: TileLoc, port: PhysPortAndID) returns (r: Option<(nat, nat)>)
      ensures r == if loc in Pairs() && port in Pairs()[loc] then Some(Pairs()[loc][port]) else None
    {
      if loc !in tiles { return None; }
      r := tiles[loc].GetAMSel(port);
    }

    /** Solves one tile and leaves the others alone. */
    method SolveTile(loc: TileLoc) returns (ok: bool)
      requires Valid() && loc in tiles
      modifies tiles[loc]
      ensures Valid() && States() == old(States()) && Pairs().Keys == States().Keys == tiles.Keys
      ensures forall a :: a in tiles && a != loc ==> Pairs()[a] == old(Pairs())[a]
      ensures if ok then Finished(States()[loc], Pairs()[loc]) else Decided(States()[loc], false)
    {
      hide Consistent, Solved, Decided, Finished;
      ok := tiles[loc].Solve();
      forall a | a in tiles && a != loc
        ensures tiles[a].State() == old(tiles[a].State()) && tiles[a].portsToAMSels == old(tiles[a].portsToAMSels)
      {
      }
      if ok {
        IsFinished(tiles[loc].State(), tiles[loc].portsToAMSels);
      }
    }

    /** Success solves every tile. */
    method Solve() returns (ok: bool)
      requires Valid()
      modifies tiles.Values
      ensures Valid() && States() == old(States())
      ensures ok ==> TilesSolved(States(), Pairs())
      ensures ok ==> forall a :: a in States() ==> Decided(States()[a], true)
      ensures !ok ==> exists a :: a in States() && Decided(States()[a], false)
    {
      hide Decided, Finished, TilesSolved, Valid, States, Pairs;
      var todo := tiles.Keys;
      while todo != {}
        invariant todo <= tiles.Keys && Valid() && States() == old(States())
        invariant States().Keys == Pairs().Keys == tiles.Keys
        invariant forall a :: a in tiles && a !in todo ==> Finished(States()[a], Pairs()[a])
      {
        var loc :| loc in todo;
        ok := SolveTile(loc);
        if !ok { return; }
        todo := todo - {loc};
      }
      AllFinished(States(), Pairs());
      return true;
    }
  }

  ghost predicate Finished(t: Tile, amsels: Amsels)
  {
    Solved(t, amsels) && Decided(t, true)
  }

  lemma IsFinished(t: Tile, amsels: Amsels)
    requires Solved(t, amsels) && Decided(t, true)
    ensures Finished(t, amsels)
  {
    hide Solved, Decided;
  }

  lemma AllFinished(tiles: map<TileLoc, Tile>, amsels: map<TileLoc, Amsels>)
    requires forall a :: a in tiles ==> a in amsels && Finished(tiles[a], amsels[a])
    ensures TilesSolved(tiles, amsels) && forall a :: a in tiles ==> Decided(tiles[a], true)
  {
    hide Solved, Decided;
    forall a | a in tiles
      ensures Solved(tiles[a], amsels[a]) && Decided(tiles[a], true)
    {
      assert Finished(tiles[a], amsels[a]);
    }
  }

  ghost function States(gens: seq<MSelGenerator>): (r: seq<MSels>)
    reads gens
    ensures |r| == |gens| && forall a :: 0 <= a < |gens| ==> r[a] == gens[a].State()
  {
    seq(|gens|, a requires 0 <= a < |gens| reads gens => gens[a].State())
  }

  /** What the loop over the groups keeps. */
  ghost predicate Placing(t: Tile, p: Plan, groups: seq<seq<Source>>, gens: seq<MSels>, owner: seq<nat>)
  {
    PlanFor(p, t) && Assigned(t, groups, gens, owner) && Placement(p, owner) && Filled(p, gens, owner)
  }

  /**
   * A new arbiter per group while there are any, then the first arbiter with msels to spare. It fails only
   * at a group for which the rule has no choice.
   */
  method AssignArbiters(t: Tile, groups: seq<seq<Source>>, ghost p: Plan)
    returns (ok: bool, gens: seq<MSelGenerator>, ghost owner: seq<nat>)
    requires PlanFor(p, t) && GroupsOk(t, groups, p.comps, t.dstPortToIds.Keys)
    ensures fresh(gens) && |owner| <= |groups| == |p.comps| && (ok <==> |owner| == |groups|)
    ensures Placement(p, owner)
    ensures ok ==> Assigned(t, groups, States(gens), owner)
    ensures !ok ==> forall a :: !Choice(p, owner, a)
  {
    gens, owner := [], [];
    NothingPlaced(t, p, groups);
    assert States([]) == [];
    for n := 0 to |groups|
      invariant fresh(gens) && NoDup(gens) && |owner| == n && Placing(t, p, groups, States(gens), owner)
    {
      hide Placing, Choice, GroupsOk;
      GroupAt(t, p, groups, n);
      InUse(t, p, groups, States(gens), owner);
      if |gens| < t.numArbiters {
        var g;
        ok, g := NewArbiter(t, p, groups, gens, owner);
        if !ok { return; }
        owner := owner + [|gens|];
        gens := gens + [g];
      } else {
        var a;
        ok, a := Merge(t, p, groups, n, gens, owner);
        if !ok { return; }
        owner := owner + [a];
      }
    }
    return true, gens, owner;
  }

  lemma NothingPlaced(t: Tile, p: Plan, groups: seq<seq<Source>>)
    requires PlanFor(p, t)
    ensures Placing(t, p, groups, [], [])
  {
  }

  lemma GroupAt(t: Tile, p: Plan, groups: seq<seq<Source>>, n: nat)
    requires GroupsOk(t, groups, p.comps, t.dstPortToIds.Keys) && n < |groups|
    ensures |groups| == |p.comps| && IsGroup(t, groups[n], p.comps[n])
  {
    hide IsGroup;
  }

  lemma InUse(t: Tile, p: Plan, groups: seq<seq<Source>>, gens: seq<MSels>, owner: seq<nat>)
    requires Placing(t, p, groups, gens, owner)
    ensures |owner| <= |p.comps| && Placement(p, owner)
    ensures |gens| == if |owner| < t.numArbiters then |owner| else t.numArbiters
  {
    hide Assigned, Choice, ListsOf;
  }

  /** The next group on an arbiter of its own. */
  method NewArbiter(t: Tile, ghost p: Plan, groups: seq<seq<Source>>, gens: seq<MSelGenerator>, ghost owner: seq<nat>)
    returns (ok: bool, g: MSelGenerator)
    requires Placing(t, p, groups, States(gens), owner) && |owner| == |gens| < t.numArbiters
    requires |groups| == |p.comps| > |owner|
    requires IsGroup(t, groups[|owner|], p.comps[|owner|])
    ensures fresh(g)
    ensures if ok then Placing(t, p, groups, States(gens + [g]), owner + [|gens|])
            else forall a :: !Choice(p, owner, a)
  {
    var group := groups[|gens|];
    hide Placing, IsGroup, Choice, KeysOf, MSelsOk, Extended, ListsAt;
    NewFits(t, p, groups, States(gens), owner);
    g := new MSelGenerator(t.numMSels);
    assert {} + KeysOf(t, group) == KeysOf(t, group);
    EmptyMSels(t.numMSels);
    ok := g.AddConnections(t, group);
    if ok {
      NewPlaces(t, p, groups, States(gens), owner, g.State());
      assert States(gens + [g]) == States(gens) + [g.State()];
    }
  }

  lemma NewFits(t: Tile, p: Plan, groups: seq<seq<Source>>, gens: seq<MSels>, owner: seq<nat>)
    requires Placing(t, p, groups, gens, owner) && |groups| == |p.comps| > |owner| && |owner| < t.numArbiters
    requires IsGroup(t, groups[|owner|], p.comps[|owner|])
    ensures forall s :: s in groups[|owner|] ==> s in t.srcToDst
    ensures KeysOf(t, groups[|owner|]) == ListsAt(t.srcToDst, p.comps[|owner|])
    ensures forall a :: Choice(p, owner, a) <==>
              a == |owner| && |KeysOf(t, groups[|owner|])| <= t.numMSels
  {
    hide IsGroup, KeysOf, ListsAt, Placement, Choice, Assigned, Filled;
    KeysAreLists(t, groups[|owner|], p.comps[|owner|]);
    OwnFits(p, owner);
  }

  lemma NewPlaces(t: Tile, p: Plan, groups: seq<seq<Source>>, gens: seq<MSels>, owner: seq<nat>, g: MSels)
    requires |gens| == |owner| < t.numArbiters && |groups| == |p.comps| > |owner| && Choice(p, owner, |owner|)
    requires forall s :: s in groups[|owner|] ==> s in t.srcToDst
    requires KeysOf(t, groups[|owner|]) == ListsAt(t.srcToDst, p.comps[|owner|])
    requires Extended(t, groups[|owner|], MSels(t.numMSels, 0, [], map[], map[]), g)
    requires Placing(t, p, groups, gens, owner)
    ensures Placing(t, p, groups, gens + [g], owner + [|gens|])
  {
    hide KeysOf, ListsAt, ListsOf, Placement, MSelsOk, Choice, Assigned, PortsOf, Filled;
    assert {} + KeysOf(t, groups[|owner|]) == KeysOf(t, groups[|owner|]);
    GiveNew(t, groups, gens, owner, g);
    PlacementNext(p, owner, |owner|);
    FilledNew(p, gens, owner, g);
  }

  lemma RoomsMatch(t: Tile, p: Plan, groups: seq<seq<Source>>, gens: seq<MSels>, owner: seq<nat>)
    requires Placing(t, p, groups, gens, owner) && |groups| == |p.comps| > |owner|
    requires IsGroup(t, groups[|owner|], p.comps[|owner|])
    ensures forall s :: s in groups[|owner|] ==> s in t.srcToDst
    ensures forall a :: 0 <= a < |gens| ==> (HasRoom(t, gens[a], groups[|owner|]) <==> Room(p, owner, a))
  {
    hide Placement, ListsOf, HasRoom, Room, MSelsOk, Touches, NoDup;
    forall a | 0 <= a < |gens|
      ensures HasRoom(t, gens[a], groups[|owner|]) <==> Room(p, owner, a)
    {
      AssignedMSelsOk(t, groups, gens, owner, a);
      RoomIff(t, p, gens[a], groups[|owner|], owner, a);
    }
  }

  lemma PlanLimits(t: Tile, p: Plan, groups: seq<seq<Source>>, gens: seq<MSels>, owner: seq<nat>)
    requires Placing(t, p, groups, gens, owner)
    ensures p.numArbiters == t.numArbiters
  {
  }

  /** The next group on the first arbiter with room. */
  method Merge(t: Tile, ghost p: Plan, groups: seq<seq<Source>>, n: nat, gens: seq<MSelGenerator>,
               ghost owner: seq<nat>)
    returns (ok: bool, a: nat)
    requires Placing(t, p, groups, States(gens), owner) && NoDup(gens) && |gens| == t.numArbiters <= n
    requires |groups| == |p.comps| > |owner| == n
    requires IsGroup(t, groups[n], p.comps[n])
    modifies gens
    ensures if ok then Placing(t, p, groups, States(gens), owner + [a])
            else forall b :: !Choice(p, owner, b)
  {
    PlanLimits(t, p, groups, States(gens), owner);
    hide Placing, IsGroup, HasRoom, Room, Fits, Choice;
    RoomsMatch(t, p, groups, States(gens), owner);
    a := FindMerge(t, gens, groups[n]);
    ok := false;
    if a < |gens| {
      ok := MergeInto(t, p, groups, n, gens, owner, a);
    }
    if !ok {
      NoChoice(p, owner, a);
    }
  }

  method MergeInto(t: Tile, ghost p: Plan, groups: seq<seq<Source>>, n: nat, gens: seq<MSelGenerator>,
                   ghost owner: seq<nat>, a: nat)
    returns (ok: bool)
    requires Placing(t, p, groups, States(gens), owner) && NoDup(gens) && a < |gens| == t.numArbiters <= n
    requires |groups| == |p.comps| > |owner| == n
    requires IsGroup(t, groups[n], p.comps[n])
    requires Room(p, owner, a) && forall b :: 0 <= b < a ==> !Room(p, owner, b)
    modifies gens[a]
    ensures ok <==> Fits(p, owner, a)
    ensures ok ==> Placing(t, p, groups, States(gens), owner + [a])
  {
    hide Placing, IsGroup, Room, Fits, KeysOf, MSelsOk, Extended, ListsAt, ListsOf;
    ghost var before := States(gens);
    MergeFits(t, p, groups, before, owner, a);
    ok := gens[a].AddConnections(t, groups[n]);
    if ok {
      MergePlaces(t, p, groups, before, owner, a, gens[a].State());
      assert States(gens) == before[a := gens[a].State()];
    }
  }

  lemma MergeFits(t: Tile, p: Plan, groups: seq<seq<Source>>, gens: seq<MSels>, owner: seq<nat>, a: nat)
    requires Placing(t, p, groups, gens, owner) && |groups| == |p.comps| > |owner| && a < |gens|
    requires IsGroup(t, groups[|owner|], p.comps[|owner|])
    ensures MSelsOk(gens[a]) && gens[a].numMSels == t.numMSels
    ensures forall s :: s in groups[|owner|] ==> s in t.srcToDst
    ensures KeysOf(t, groups[|owner|]) == ListsAt(t.srcToDst, p.comps[|owner|])
    ensures |gens[a].connectionToMSel.Keys + KeysOf(t, groups[|owner|])| <= t.numMSels <==>
            Fits(p, owner, a)
  {
    hide IsGroup, KeysOf, ListsAt, ListsOf, Placement, MSelsOk;
    KeysAreLists(t, groups[|owner|], p.comps[|owner|]);
    AssignedMSelsOk(t, groups, gens, owner, a);
  }

  lemma MergePlaces(t: Tile, p: Plan, groups: seq<seq<Source>>, gens: seq<MSels>, owner: seq<nat>, a: nat, g: MSels)
    requires a < |gens| == t.numArbiters <= |owner| && |groups| == |p.comps| > |owner|
    requires Room(p, owner, a) && Fits(p, owner, a) && forall b :: 0 <= b < a ==> !Room(p, owner, b)
    requires forall s :: s in groups[|owner|] ==> s in t.srcToDst
    requires KeysOf(t, groups[|owner|]) == ListsAt(t.srcToDst, p.comps[|owner|])
    requires gens[a].numMSels == t.numMSels && Extended(t, groups[|owner|], gens[a], g)
    requires Placing(t, p, groups, gens, owner)
    ensures Placing(t, p, groups, gens[a := g], owner + [a])
  {
    hide KeysOf, ListsAt, ListsOf, Placement, MSelsOk, Room, Fits, Assigned, PortsOf, Filled;
    GiveTo(t, groups, gens, owner, a, g);
    hide SameKey;
    PlacementNext(p, owner, a);
    FilledMerged(p, gens, owner, a, g);
  }

  /** The first arbiter for which the strict msel estimate leaves room; `|gens|` if there is none. */
  method FindMerge(t: Tile, gens: seq<MSelGenerator>, group: seq<Source>) returns (a: nat)
    requires forall s :: s in group ==> s in t.srcToDst
    ensures a <= |gens| && (a < |gens| ==> HasRoom(t, gens[a].State(), group))
    ensures forall b :: 0 <= b < a ==> !HasRoom(t, gens[b].State(), group)
  {
    a := 0;
    while a < |gens|
      invariant a <= |gens| && forall b :: 0 <= b < a ==> !HasRoom(t, gens[b].State(), group)
    {
      var needed := gens[a].NumMSelsForConnections(t, group);
      if gens[a].curMSel + needed < t.numMSels { return; }
      a := a + 1;
    }
  }

  method Retrieve(gens: seq<MSelGenerator>) returns (amsels: Amsels)
    requires forall a :: 0 <= a < |gens| ==> MSelsOk(gens[a].State())
    ensures Retrieved(States(gens), amsels)
  {
    hide MSelsOk;
    amsels := map[];
    for a := 0 to |gens|
      invariant Retrieved(States(gens)[..a], amsels)
    {
      hide Retrieved, MSel;
      ghost var before := amsels;
      amsels := RetrieveOne(gens[a], a, amsels);
      RetrievedNext(States(gens)[..a], gens[a].State(), before, amsels);
      assert States(gens)[..a + 1] == States(gens)[..a] + [gens[a].State()];
    }
    assert States(gens)[..|gens|] == States(gens);
  }

  /** The pairs of arbiter `a`, written over what is there. */
  ghost predicate Overwritten(g: MSels, a: nat, before: Amsels, amsels: Amsels)
  {
    && (forall s :: s in amsels <==> s in before || s in g.srcs)
    && (forall s :: s in before && s !in g.srcs ==> amsels[s] == before[s])
    && (forall s :: s in g.srcs ==> amsels[s].0 == a && MSel(g, s) == Some(amsels[s].1))
  }

  method RetrieveOne(g: MSelGenerator, a: nat, before: Amsels) returns (amsels: Amsels)
    requires MSelsOk(g.State())
    ensures Overwritten(g.State(), a, before, amsels)
  {
    amsels := before;
    for k := 0 to |g.srcs|
      invariant Overwritten(g.State().(srcs := g.srcs[..k]), a, before, amsels)
    {
      assert g.srcs[k] in g.srcs;
      amsels := amsels[g.srcs[k] := (a, MSel(g.State(), g.srcs[k]).value)];
      assert g.srcs[..k + 1] == g.srcs[..k] + [g.srcs[k]];
    }
    assert g.srcs[..|g.srcs|] == g.srcs;
  }

  lemma RetrievedNext(gens: seq<MSels>, g: MSels, before: Amsels, amsels: Amsels)
    requires Retrieved(gens, before) && Overwritten(g, |gens|, before, amsels)
    ensures Retrieved(gens + [g], amsels)
  {
  }

  lemma EmptyMSels(n: nat)
    ensures MSelsOk(MSels(n, 0, [], map[], map[]))
  {
  }

  lemma AssignedMSelsOk(t: Tile, groups: seq<seq<Source>>, gens: seq<MSels>, owner: seq<nat>, a: nat)
    requires Assigned(t, groups, gens, owner) && a < |gens|
    ensures MSelsOk(gens[a]) && gens[a].numMSels == t.numMSels
    ensures forall s :: s in gens[a].srcs ==> s in gens[a].physPortToConnection
  {
  }

  /** Giving the next group to a new arbiter. */
  lemma GiveNew(t: Tile, groups: seq<seq<Source>>, gens: seq<MSels>, owner: seq<nat>, g: MSels)
    requires Assigned(t, groups, gens, owner) && |owner| < |groups| && |gens| < t.numArbiters
    requires MSelsOk(g) && g.numMSels == t.numMSels
    requires forall s :: s in g.srcs <==> s in groups[|owner|]
    requires forall s :: s in g.srcs ==> s in t.srcToDst && g.physPortToConnection[s] == PortsOf(t.srcToDst[s])
    ensures Assigned(t, groups, gens + [g], owner + [|gens|])
  {
    var owner', gens' := owner + [|gens|], gens + [g];
    hide MSelsOk;
    forall a | 0 <= a < |gens'|
      ensures Holds(t, gens'[a], a, groups, owner')
    {
      if a < |gens| {
        OwnerElsewhere(t, gens[a], a, groups, owner, |gens|);
      } else {
        assert forall s :: s in groups[|owner|] ==> owner'[|owner|] == a && s in groups[|owner|];
      }
    }
  }

  /** Giving the next group to an arbiter in use. */
  lemma GiveTo(t: Tile, groups: seq<seq<Source>>, gens: seq<MSels>, owner: seq<nat>, b: nat, g: MSels)
    requires Assigned(t, groups, gens, owner) && |owner| < |groups| && b < |gens|
    requires MSelsOk(g) && g.numMSels == t.numMSels
    requires forall s :: s in g.srcs <==> s in gens[b].srcs || s in groups[|owner|]
    requires forall s :: s in groups[|owner|] ==> s in t.srcToDst && g.physPortToConnection[s] == PortsOf(t.srcToDst[s])
    requires forall s :: s in gens[b].srcs && s !in groups[|owner|] ==>
               s in gens[b].physPortToConnection && g.physPortToConnection[s] == gens[b].physPortToConnection[s]
    ensures Assigned(t, groups, gens[b := g], owner + [b])
  {
    var owner', gens' := owner + [b], gens[b := g];
    hide MSelsOk;
    forall a | 0 <= a < |gens'|
      ensures Holds(t, gens'[a], a, groups, owner')
    {
      assert Holds(t, gens[a], a, groups, owner);
      if a != b {
        OwnerElsewhere(t, gens[a], a, groups, owner, b);
      } else {
        OwnerHere(groups, owner, b);
      }
    }
  }

  lemma OwnerHere(groups: seq<seq<Source>>, owner: seq<nat>, b: nat)
    requires |owner| < |groups|
    ensures var owner' := owner + [b];
            forall s :: (exists i :: 0 <= i < |owner'| && owner'[i] == b && s in groups[i]) <==>
                        (exists i :: 0 <= i < |owner| && owner[i] == b && s in groups[i]) || s in groups[|owner|]
  {
    var owner' := owner + [b];
    forall s, i | 0 <= i < |owner| && owner[i] == b && s in groups[i]
      ensures owner'[i] == b
    {
    }
    assert owner'[|owner|] == b;
  }

  lemma OwnerElsewhere(t: Tile, g: MSels, a: nat, groups: seq<seq<Source>>, owner: seq<nat>, b: nat)
    requires |owner| < |groups| && Holds(t, g, a, groups, owner) && a != b
    ensures Holds(t, g, a, groups, owner + [b])
  {
    hide MSelsOk;
    var owner' := owner + [b];
    forall s | s in g.srcs
      ensures exists i :: 0 <= i < |owner'| && owner'[i] == a && s in groups[i]
    {
      var i :| 0 <= i < |owner| && owner[i] == a && s in groups[i];
      assert owner'[i] == a;
    }
  }

  lemma {:induction false} AddedAllSources(t: Tile, src: Source, dsts: seq<PhysPortAndID>)
    ensures AddedAll(t, src, dsts).srcToDst == t.srcToDst[src := Get(t.srcToDst, src) + dsts]
    decreases |dsts|
  {
    if dsts == [] {
      assert Get(t.srcToDst, src) + dsts == Get(t.srcToDst, src);
    } else {
      var n := |dsts| - 1;
      AddedAllSources(t, src, dsts[..n]);
      assert Get(t.srcToDst, src) + dsts == Get(t.srcToDst, src) + dsts[..n] + [dsts[n]];
    }
  }

  /** The breadth-first search from `dstPort`. */
  method CollectGroup(t: Tile, dstPort: Port, visited0: set<PhysPortAndID>, ports0: set<Port>)
    returns (group: seq<Source>, visited: set<PhysPortAndID>, ports: set<Port>)
    requires Consistent(t) && dstPort in t.dstPortToIds && dstPort !in ports0 && Explored(t, visited0, ports0)
    requires ports0 <= t.dstPortToIds.Keys
    ensures Explored(t, visited, ports) && ports0 <= ports <= t.dstPortToIds.Keys
    ensures IsComponent(t, dstPort, ports - ports0) && IsGroup(t, group, ports - ports0)
  {
    group, visited, ports := [], visited0, ports0;
    var q := t.dstPortToIds[dstPort];
    StartSearch(t, dstPort, visited0, ports0);
    while q != []
      invariant Searching(t, dstPort, visited0, ports0, visited, ports, q, group)
      decreases Universe(t) - visited, |q|
    {
      var elem := q[0];
      hide Consistent, IsGroup, IsComponent, Explored;
      assert elem in Universe(t);
      hide Searching;
      if elem in visited {
        SearchVisited(t, dstPort, visited0, ports0, visited, ports, q, group);
        q := q[1..];
      } else if elem in t.srcToDst {
        SearchSource(t, dstPort, visited0, ports0, visited, ports, q, group);
        group := group + [elem];
        visited := visited + {elem};
        q := q[1..] + t.srcToDst[elem];
      } else if elem.physPort.port in ports {
        SearchKnownPort(t, dstPort, visited0, ports0, visited, ports, q, group);
        visited := visited + {elem};
        q := q[1..];
      } else {
        var more := PortNeighbours(t, elem.physPort.port);
        SearchNewPort(t, dstPort, visited0, ports0, visited, ports, q, group, more);
        visited := visited + {elem};
        ports := ports + {elem.physPort.port};
        q := q[1..] + more;
      }
    }
    SearchFound(t, dstPort, visited0, ports0, visited, ports, group);
  }

  /** The loop invariant of the search from `p`. */
  ghost predicate Searching(t: Tile, p: Port, visited0: set<PhysPortAndID>, ports0: set<Port>,
                            visited: set<PhysPortAndID>, ports: set<Port>, q: seq<PhysPortAndID>, group: seq<Source>)
    requires p in t.dstPortToIds
  {
    && Exploring(t, visited, ports, q)
    && Confined(t, p, q, ports - ports0) && Confined(t, p, group, {})
    && visited0 <= visited && ports0 <= ports <= t.dstPortToIds.Keys
    && (forall x :: x in q ==> x in Universe(t))
    && (forall d :: d in t.dstPortToIds[p] ==> d in visited || d in q)
    && NoDup(group) && (forall s :: s in group <==> s in visited && s !in visited0 && s in t.srcToDst)
  }

  lemma StartSearch(t: Tile, p: Port, visited: set<PhysPortAndID>, ports: set<Port>)
    requires Consistent(t) && p in t.dstPortToIds && Explored(t, visited, ports) && ports <= t.dstPortToIds.Keys
    ensures Searching(t, p, visited, ports, visited, ports, t.dstPortToIds[p], [])
  {
    hide PortsIndexed, BackwardOk, ForwardOk;
    assert ports - ports == {};
    hide PortClosed;
  }

  lemma SearchVisited(t: Tile, p: Port, visited0: set<PhysPortAndID>, ports0: set<Port>,
                      visited: set<PhysPortAndID>, ports: set<Port>, q: seq<PhysPortAndID>, group: seq<Source>)
    requires p in t.dstPortToIds && Searching(t, p, visited0, ports0, visited, ports, q, group)
    requires q != [] && q[0] in visited
    ensures Searching(t, p, visited0, ports0, visited, ports, q[1..], group)
  {
    hide Exploring, Confined;
    assert q == [q[0]] + q[1..];
    PopVisited(t, visited, ports, q);
    ConfinedTail(t, p, q, ports - ports0);
  }

  lemma SearchSource(t: Tile, p: Port, visited0: set<PhysPortAndID>, ports0: set<Port>,
                     visited: set<PhysPortAndID>, ports: set<Port>, q: seq<PhysPortAndID>, group: seq<Source>)
    requires Consistent(t) && p in t.dstPortToIds && Searching(t, p, visited0, ports0, visited, ports, q, group)
    requires q != [] && q[0] !in visited && q[0] in t.srcToDst
    ensures Searching(t, p, visited0, ports0, visited + {q[0]}, ports, q[1..] + t.srcToDst[q[0]], group + [q[0]])
  {
    hide Exploring, Confined;
    assert q == [q[0]] + q[1..];
    PopSource(t, visited, ports, q);
    ConfinedSource(t, p, q, ports - ports0);
    ConfinedGroup(t, p, group, q, ports - ports0);
    SourceKnown(t, q[0]);
  }

  lemma SearchKnownPort(t: Tile, p: Port, visited0: set<PhysPortAndID>, ports0: set<Port>,
                        visited: set<PhysPortAndID>, ports: set<Port>, q: seq<PhysPortAndID>, group: seq<Source>)
    requires p in t.dstPortToIds && Searching(t, p, visited0, ports0, visited, ports, q, group)
    requires q != [] && q[0] !in visited && q[0] !in t.srcToDst && q[0].physPort.port in ports
    ensures Searching(t, p, visited0, ports0, visited + {q[0]}, ports, q[1..], group)
  {
    hide Exploring, Confined;
    assert q == [q[0]] + q[1..];
    PopKnownPort(t, visited, ports, q);
    ConfinedTail(t, p, q, ports - ports0);
  }

  lemma SearchNewPort(t: Tile, p: Port, visited0: set<PhysPortAndID>, ports0: set<Port>,
                      visited: set<PhysPortAndID>, ports: set<Port>, q: seq<PhysPortAndID>, group: seq<Source>,
                      more: seq<PhysPortAndID>)
    requires Consistent(t) && p in t.dstPortToIds && Searching(t, p, visited0, ports0, visited, ports, q, group)
    requires q != [] && q[0] !in visited && q[0] !in t.srcToDst && q[0].physPort.port !in ports
    requires QueuedFor(t, q[0].physPort.port, more)
    ensures Searching(t, p, visited0, ports0, visited + {q[0]}, ports + {q[0].physPort.port}, q[1..] + more, group)
  {
    hide Exploring, Confined;
    var port := q[0].physPort.port;
    assert q == [q[0]] + q[1..];
    PopNewPort(t, visited, ports, q, more);
    ConfinedPort(t, p, q, ports - ports0, more);
    assert ports + {port} - ports0 == ports - ports0 + {port};
    PortKnown(t, q[0], more);
    hide Consistent, QueuedFor;
  }

  lemma SourceKnown(t: Tile, s: Source)
    requires Consistent(t) && s in t.srcToDst
    ensures forall x :: x in t.srcToDst[s] ==> x in Universe(t)
  {
  }

  lemma PortKnown(t: Tile, d: PhysPortAndID, more: seq<PhysPortAndID>)
    requires Consistent(t) && d in Universe(t) && d !in t.srcToDst && QueuedFor(t, d.physPort.port, more)
    ensures d.physPort.port in t.dstPortToIds && forall x :: x in more ==> x in Universe(t)
  {
  }

  /** One search per destination port not reached before: the groups are exactly the connected components, in order. */
  method CollectGroups(t: Tile) returns (groups: seq<seq<Source>>)
    requires Consistent(t)
    ensures GroupsOk(t, groups, PlanOf(t).comps, t.dstPortToIds.Keys)
  {
    groups := [];
    ghost var comps: seq<set<Port>> := [];
    hide Consistent, IsGroup, Explored, Collecting, IsComponent, GroupsOk, PlanOf;
    NothingCollected(t);
    var visited: set<PhysPortAndID>, ports: set<Port> := {}, {};
    for k := 0 to |t.dstPorts|
      invariant Collecting(t, groups, comps, ports, k) && Explored(t, visited, ports) && ports <= t.dstPortToIds.Keys
      invariant forall j :: 0 <= j < k ==> t.dstPorts[j] in ports
    {
      if t.dstPorts[k] in ports {
        CollectKnown(t, groups, comps, ports, k);
      } else {
        DstPortKnown(t, k);
        var group, visited', ports' := CollectGroup(t, t.dstPorts[k], visited, ports);
        CollectNew(t, groups, comps, ports, k, group, ports');
        groups, comps, visited, ports := groups + [group], comps + [ports' - ports], visited', ports';
      }
    }
    AllCovered(t, ports);
    AllCollected(t, groups, comps);
  }

  lemma DstPortKnown(t: Tile, k: nat)
    requires Consistent(t) && k < |t.dstPorts|
    ensures t.dstPorts[k] in t.dstPortToIds
  {
    hide IdsIndexed, BackwardOk, ForwardOk;
    assert t.dstPorts[k] in t.dstPorts;
  }

  lemma AllCovered(t: Tile, ports: set<Port>)
    requires Consistent(t) && ports <= t.dstPortToIds.Keys
    requires forall j :: 0 <= j < |t.dstPorts| ==> t.dstPorts[j] in ports
    ensures ports == t.dstPortToIds.Keys
  {
    hide IdsIndexed, BackwardOk, ForwardOk;
    forall p | p in t.dstPortToIds
      ensures p in ports
    {
      assert p in t.dstPorts;
    }
  }

  /** The groups of the first `k` destination ports, in order. */
  ghost predicate Collecting(t: Tile, groups: seq<seq<Source>>, comps: seq<set<Port>>, ports: set<Port>, k: nat)
  {
    k <= |t.dstPorts| && GroupsOk(t, groups, comps, ports) && comps == ComponentsIn(t.srcToDst, t.dstPorts[..k])
  }

  lemma NothingCollected(t: Tile)
    ensures Collecting(t, [], [], {}, 0) && Explored(t, {}, {})
  {
    NoGroups(t);
    hide GroupsOk, Explored;
  }

  lemma AllCollected(t: Tile, groups: seq<seq<Source>>, comps: seq<set<Port>>)
    requires Collecting(t, groups, comps, t.dstPortToIds.Keys, |t.dstPorts|)
    ensures GroupsOk(t, groups, PlanOf(t).comps, t.dstPortToIds.Keys)
  {
    hide GroupsOk, ComponentsIn;
    assert t.dstPorts[..|t.dstPorts|] == t.dstPorts;
  }

  lemma CollectKnown(t: Tile, groups: seq<seq<Source>>, comps: seq<set<Port>>, ports: set<Port>, k: nat)
    requires Collecting(t, groups, comps, ports, k) && k < |t.dstPorts| && t.dstPorts[k] in ports
    ensures Collecting(t, groups, comps, ports, k + 1)
  {
    hide ComponentsIn, GroupsOk;
    NextComponent(t, groups, comps, ports, k);
  }

  lemma CollectNew(t: Tile, groups: seq<seq<Source>>, comps: seq<set<Port>>, ports: set<Port>, k: nat,
                   group: seq<Source>, ports': set<Port>)
    requires Consistent(t) && Collecting(t, groups, comps, ports, k) && k < |t.dstPorts| && t.dstPorts[k] !in ports
    requires ports <= ports' <= t.dstPortToIds.Keys
    requires IsComponent(t, t.dstPorts[k], ports' - ports) && IsGroup(t, group, ports' - ports)
    ensures Collecting(t, groups + [group], comps + [ports' - ports], ports', k + 1) && t.dstPorts[k] in ports'
  {
    hide Consistent, ComponentsIn, GroupsOk, IsGroup, IsComponent, ComponentOf;
    NextComponent(t, groups, comps, ports, k);
    FoundComponent(t, t.dstPorts[k], ports' - ports);
    AppendGroup(t, groups, comps, ports, group, ports' - ports);
    assert ports + (ports' - ports) == ports';
  }

  lemma OwnComponent(t: Tile, p: Port, comp: set<Port>)
    requires IsComponent(t, p, comp)
    ensures p in comp
  {
    hide PortClosed;
  }

  lemma FoundComponent(t: Tile, p: Port, comp: set<Port>)
    requires Consistent(t) && IsComponent(t, p, comp) && comp <= t.dstPortToIds.Keys
    ensures comp == ComponentOf(t.srcToDst, p) && p in comp
  {
    OwnComponent(t, p, comp);
    hide Consistent, IsComponent, ComponentOf, FedPorts;
    PortsAreFed(t);
    IsComponentOf(t, p, comp);
  }

  lemma NextComponent(t: Tile, groups: seq<seq<Source>>, comps: seq<set<Port>>, ports: set<Port>, k: nat)
    requires GroupsOk(t, groups, comps, ports) && k < |t.dstPorts|
    requires comps == ComponentsIn(t.srcToDst, t.dstPorts[..k])
    ensures ComponentsIn(t.srcToDst, t.dstPorts[..k + 1]) ==
            if t.dstPorts[k] in ports then comps else comps + [ComponentOf(t.srcToDst, t.dstPorts[k])]
  {
    hide IsGroup, ComponentOf;
    assert t.dstPorts[..k + 1][..k] == t.dstPorts[..k];
  }
}
