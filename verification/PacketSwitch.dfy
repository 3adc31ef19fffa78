/**
 * The packet configuration of a switch from end to end: flows are compiled to slave rules and master
 * settings, and `Route` is what the hardware does with them.
 */
module PacketSwitch {
  import opened Common
  import opened PacketTypes
  import opened PacketGroups
  import opened AmselModel
  import opened AmselComponents
  import opened AmselPlacement
  import opened AmselGenerator

  type Flows = map<PhysPortAndID, seq<PhysPortAndID>>

  type Amsel = (nat, nat)

  type Mastersets = map<PhysPort, seq<Amsel>>

  /** Arbiters, msels and rule slots of each tile's switch. */
  datatype Limits = Limits(numArbiters: nat, numMSels: nat, numSlots: nat)

  datatype Rule = Rule(mask: Mask, id: Id, amsel: Amsel)

  /** The two fields written for a master port; the select word is the set of its one bits. */
  datatype Master = Master(arbiterId: int, masterSelect: set<nat>)

  datatype SwitchConfig = SwitchConfig(rules: map<PhysPort, seq<Rule>>, masters: map<PhysPort, Master>)

  /** Sources are SRC ports, destinations are DST ports of the same tile. */
  ghost predicate FlowsOk(flows: Flows)
  {
    forall s :: s in flows ==> s.physPort.dir == SRC && DestsOnTile(flows[s], s.physPort.tile)
  }

  ghost predicate DestsOnTile(dsts: seq<PhysPortAndID>, tile: TileLoc)
  {
    forall k :: 0 <= k < |dsts| ==> dsts[k].physPort.dir == DST && dsts[k].physPort.tile == tile
  }

  function DestsOf(flows: Flows): (dests: Dests)
  {
    map s | s in flows :: PhysPortsOf(flows[s])
  }

  // ---- the hardware

  function Delivered(masters: map<PhysPort, Master>, tile: TileLoc, amsel: Amsel): (r: set<PhysPort>)
  {
    set p | p in masters && p.tile == tile && masters[p].arbiterId == amsel.0 && amsel.1 in masters[p].masterSelect
  }

  /** A packet takes the first rule whose masked compare succeeds and goes to every master the rule selects. */
  function Route(rules: seq<Rule>, masters: map<PhysPort, Master>, tile: TileLoc, id: Id): (r: Option<set<PhysPort>>)
  {
    if rules == [] then None
    else if MaskedEqual(id, rules[0].id, rules[0].mask) then Some(Delivered(masters, tile, rules[0].amsel))
    else Route(rules[1..], masters, tile, id)
  }

  // ---- (arbiter, msel) pairs

  ghost predicate PairsInRange(flows: Flows, limits: TileLoc -> Limits, slaves: map<PhysPortAndID, Amsel>)
  {
    && (forall s :: s in slaves <==> s in flows)
    && (forall s :: s in slaves ==> PairInRange(limits(s.physPort.tile), slaves[s]))
  }

  predicate PairInRange(limit: Limits, amsel: Amsel)
  {
    amsel.0 < limit.numArbiters && amsel.1 < limit.numMSels
  }

  ghost predicate Feeds(flows: Flows, s: PhysPortAndID, p: PhysPort)
  {
    s in flows && exists k :: 0 <= k < |flows[s]| && flows[s][k].physPort == p
  }

  /** Sources that feed one master port have one arbiter. */
  ghost predicate ArbitersAgree(flows: Flows, slaves: map<PhysPortAndID, Amsel>)
  {
    forall s, r, p :: s in slaves && r in slaves && Feeds(flows, s, p) && Feeds(flows, r, p) ==>
      slaves[s].0 == slaves[r].0
  }

  /** Sources of a tile with equal pairs feed the same master ports. */
  ghost predicate PairsAgree(flows: Flows, slaves: map<PhysPortAndID, Amsel>)
  {
    forall s, r, p ::
      s in slaves && r in slaves && slaves[s] == slaves[r] && s.physPort.tile == r.physPort.tile
      && Feeds(flows, s, p) ==>
      Feeds(flows, r, p)
  }

  /** The generator after the flows of `order`: every tile knows exactly its own flows. */
  ghost predicate TileHas(t: Tile, loc: TileLoc, flows: Flows, order: seq<PhysPortAndID>, limits: TileLoc -> Limits)
  {
    && t.numArbiters == limits(loc).numArbiters && t.numMSels == limits(loc).numMSels
    && (forall s :: s in t.srcToDst <==> s in order && s.physPort.tile == loc)
    && (forall s :: s in t.srcToDst ==> s in flows && t.srcToDst[s] == flows[s])
    && t.dstPorts == PortsInOrder(flows, order, loc)
  }

  /** The destination ports on a tile, as the flows of `order` name them. */
  function PortsInOrder(flows: Flows, order: seq<PhysPortAndID>, loc: TileLoc): (r: seq<Port>)
  {
    if order == [] then []
    else
      var n := |order| - 1;
      PortsInOrder(flows, order[..n], loc)
      + if order[n].physPort.tile == loc && order[n] in flows then PortsOf(flows[order[n]]) else []
  }

  lemma PortsInOrderNext(flows: Flows, order: seq<PhysPortAndID>, loc: TileLoc, s: PhysPortAndID)
    ensures PortsInOrder(flows, order + [s], loc) ==
            PortsInOrder(flows, order, loc) + if s.physPort.tile == loc && s in flows then PortsOf(flows[s]) else []
  {
    assert (order + [s])[..|order|] == order;
  }

  lemma {:induction false} NoPortsOn(flows: Flows, order: seq<PhysPortAndID>, loc: TileLoc)
    requires forall s :: s in order ==> s.physPort.tile != loc
    ensures PortsInOrder(flows, order, loc) == []
  {
    if order != [] {
      NoPortsOn(flows, order[..|order| - 1], loc);
    }
  }

  lemma {:induction false} AddedAllPorts(t: Tile, src: PhysPortAndID, dsts: seq<PhysPortAndID>)
    ensures AddedAll(t, src, dsts).dstPorts == t.dstPorts + PortsOf(dsts)
    decreases |dsts|
  {
    if dsts != [] {
      var n := |dsts| - 1;
      AddedAllPorts(t, src, dsts[..n]);
      assert PortsOf(dsts) == PortsOf(dsts[..n]) + [dsts[n].physPort.port];
    }
  }

  ghost predicate TilesHave(tiles: map<TileLoc, Tile>, flows: Flows, order: seq<PhysPortAndID>,
                            limits: TileLoc -> Limits)
  {
    && (forall s :: s in order ==> s.physPort.tile in tiles)
    && (forall loc :: loc in tiles ==> TileHas(tiles[loc], loc, flows, order, limits))
  }

  method CollectConnections(flows: Flows, order: seq<PhysPortAndID>, limits: TileLoc -> Limits)
    returns (g: AMSelGenerator)
    requires FlowsOk(flows) && NoDup(order) && forall s :: s in order ==> s in flows
    ensures fresh(g) && fresh(g.tiles.Values) && g.Valid() && TilesHave(g.States(), flows, order, limits)
  {
    hide Consistent, TileHas, FlowsOk;
    g := new AMSelGenerator();
    for k := 0 to |order|
      invariant fresh(g) && fresh(g.tiles.Values) && g.Valid() && TilesHave(g.States(), flows, order[..k], limits)
    {
      assert order[k] in order && order[k] !in order[..k] && order[..k + 1] == order[..k] + [order[k]];
      hide NoDup, TilesHave;
      AddFlow(g, flows, order[..k], limits, order[k]);
    }
    assert order[..|order|] == order;
  }

  method AddFlow(g: AMSelGenerator, flows: Flows, ghost order: seq<PhysPortAndID>, limits: TileLoc -> Limits,
                 s: PhysPortAndID)
    requires g.Valid() && TilesHave(g.States(), flows, order, limits) && s !in order && s in flows && FlowsOk(flows)
    modifies g, g.tiles.Values
    ensures g.Valid() && TilesHave(g.States(), flows, order + [s], limits)
    ensures fresh(g.tiles.Values - old(g.tiles.Values))
  {
    hide Consistent, AddedAll, TilesHave;
    var loc := s.physPort.tile;
    if loc !in g.States() {
      NewTileHas(loc, flows, order, limits, g.States());
    }
    g.InitTileIfNotExists(loc, limits(loc).numArbiters, limits(loc).numMSels);
    TilesHaveNext(g.States(), flows, order, limits, s);
    var ok := g.AddConnection(loc, s, flows[s]);
  }

  lemma TilesHaveNext(tiles: map<TileLoc, Tile>, flows: Flows, order: seq<PhysPortAndID>, limits: TileLoc -> Limits,
                      s: PhysPortAndID)
    requires TilesHave(tiles, flows, order, limits) && s !in order && s.physPort.tile in tiles
    requires Consistent(tiles[s.physPort.tile]) && s in flows && s.physPort.dir == SRC
    requires DestsOnTile(flows[s], s.physPort.tile)
    ensures TilesHave(tiles[s.physPort.tile := AddedAll(tiles[s.physPort.tile], s, flows[s])], flows, order + [s],
      limits)
  {
    hide Consistent, AddedAll, TileHas, DestsOnTile;
    TileHasNext(tiles[s.physPort.tile], flows, order, limits, s);
    forall a | a in tiles && a != s.physPort.tile
      ensures TileHas(tiles[a], a, flows, order + [s], limits)
    {
      OtherTileHas(tiles[a], a, flows, order, limits, s);
    }
  }

  lemma TileHasNext(t: Tile, flows: Flows, order: seq<PhysPortAndID>, limits: TileLoc -> Limits, s: PhysPortAndID)
    requires Consistent(t) && TileHas(t, s.physPort.tile, flows, order, limits) && s !in order
    requires s in flows && s.physPort.dir == SRC && DestsOnTile(flows[s], s.physPort.tile)
    ensures TileHas(AddedAll(t, s, flows[s]), s.physPort.tile, flows, order + [s], limits)
  {
    hide Consistent, AddedAll, PortsOf, PortsInOrder;
    AddedAllOk(t, s, flows[s]);
    AddedAllPorts(t, s, flows[s]);
    PortsInOrderNext(flows, order, s.physPort.tile, s);
    assert [] + flows[s] == flows[s];
  }

  lemma OtherTileHas(t: Tile, loc: TileLoc, flows: Flows, order: seq<PhysPortAndID>, limits: TileLoc -> Limits,
                     s: PhysPortAndID)
    requires TileHas(t, loc, flows, order, limits) && loc != s.physPort.tile
    ensures TileHas(t, loc, flows, order + [s], limits)
  {
    hide PortsInOrder;
    PortsInOrderNext(flows, order, loc, s);
    assert t.dstPorts + [] == t.dstPorts;
  }

  lemma NewTileHas(loc: TileLoc, flows: Flows, order: seq<PhysPortAndID>, limits: TileLoc -> Limits, tiles: map<TileLoc,
                   Tile>)
    requires TilesHave(tiles, flows, order, limits) && loc !in tiles
    ensures TilesHave(tiles[loc := EmptyTile(limits(loc).numArbiters, limits(loc).numMSels)], flows, order, limits)
  {
    hide PortsInOrder;
    NoPortsOn(flows, order, loc);
  }

  // ---- emission

  /** Each source's pair is its tile's. */
  ghost predicate PairsRead(flows: Flows, amsels: map<TileLoc, Amsels>, slaves: map<PhysPortAndID, Amsel>)
  {
    && (forall s :: s in slaves <==> s in flows)
    && (forall s :: s in slaves ==>
          s.physPort.tile in amsels && s in amsels[s.physPort.tile] && slaves[s] == amsels[s.physPort.tile][s])
  }

  lemma SolvedPairs(tiles: map<TileLoc, Tile>, amsels: map<TileLoc, Amsels>, flows: Flows, order: seq<PhysPortAndID>,
                    limits: TileLoc -> Limits, slaves: map<PhysPortAndID, Amsel>)
    requires FlowsOk(flows) && (forall s :: s in order <==> s in flows)
    requires TilesHave(tiles, flows, order, limits) && TilesSolved(tiles, amsels) && PairsRead(flows, amsels, slaves)
    ensures PairsInRange(flows, limits, slaves) && ArbitersAgree(flows, slaves) && PairsAgree(flows, slaves)
  {
    hide TileHas, Solved, DestsOnTile, Feeds, FlowsOk;
    forall s | s in slaves
      ensures PairInRange(limits(s.physPort.tile), slaves[s])
    {
      SolvedInRange(tiles[s.physPort.tile], amsels[s.physPort.tile], flows, order, limits, s);
    }
    forall s, r, p | s in slaves && r in slaves && Feeds(flows, s, p) && Feeds(flows, r, p)
      ensures slaves[s].0 == slaves[r].0
    {
      FedTile(flows, s, p);
      FedTile(flows, r, p);
      SolvedArbiter(tiles[p.tile], amsels[p.tile], flows, order, limits, s, r, p);
    }
    forall s, r, p | s in slaves && r in slaves && slaves[s] == slaves[r] && s.physPort.tile == r.physPort.tile
      && Feeds(flows, s, p)
      ensures Feeds(flows, r, p)
    {
      SolvedPorts(tiles[s.physPort.tile], amsels[s.physPort.tile], flows, order, limits, s, r, p);
    }
  }

  lemma FedTile(flows: Flows, s: PhysPortAndID, p: PhysPort)
    requires FlowsOk(flows) && Feeds(flows, s, p)
    ensures p.tile == s.physPort.tile && p.dir == DST
  {
  }

  lemma SolvedInRange(t: Tile, amsels: Amsels, flows: Flows, order: seq<PhysPortAndID>, limits: TileLoc -> Limits,
                      s: PhysPortAndID)
    requires TileHas(t, s.physPort.tile, flows, order, limits) && Solved(t, amsels) && s in amsels
    ensures PairInRange(limits(s.physPort.tile), amsels[s])
  {
  }

  lemma FeedsHasPort(t: Tile, flows: Flows, order: seq<PhysPortAndID>, limits: TileLoc -> Limits, s: PhysPortAndID,
                     p: PhysPort)
    requires TileHas(t, p.tile, flows, order, limits) && s in t.srcToDst && Feeds(flows, s, p)
    ensures HasPort(t, s, p.port)
  {
    var i :| 0 <= i < |flows[s]| && flows[s][i].physPort == p;
    assert flows[s][i] in t.srcToDst[s];
  }

  lemma SolvedArbiter(t: Tile, amsels: Amsels, flows: Flows, order: seq<PhysPortAndID>, limits: TileLoc -> Limits,
                      s: PhysPortAndID, r: PhysPortAndID, p: PhysPort)
    requires TileHas(t, p.tile, flows, order, limits) && Solved(t, amsels) && s in amsels && r in amsels
    requires Feeds(flows, s, p) && Feeds(flows, r, p)
    ensures amsels[s].0 == amsels[r].0
  {
    hide TileHas, Feeds, HasPort, SamePorts;
    FeedsHasPort(t, flows, order, limits, s, p);
    FeedsHasPort(t, flows, order, limits, r, p);
  }

  lemma SolvedPorts(t: Tile, amsels: Amsels, flows: Flows, order: seq<PhysPortAndID>, limits: TileLoc -> Limits,
                    s: PhysPortAndID, r: PhysPortAndID, p: PhysPort)
    requires FlowsOk(flows) && s.physPort.tile == r.physPort.tile && r in flows
    requires TileHas(t, s.physPort.tile, flows, order, limits) && Solved(t, amsels) && s in amsels && r in amsels
    requires amsels[s] == amsels[r] && Feeds(flows, s, p)
    ensures Feeds(flows, r, p)
  {
    hide HasPort, ArbitersShared;
    assert SamePorts(t, s, r) && t.srcToDst[s] == flows[s] && t.srcToDst[r] == flows[r];
    hide Solved, TileHas;
    var i :| 0 <= i < |flows[s]| && flows[s][i].physPort == p;
    assert PortsOf(flows[s])[i] == PortsOf(flows[r])[i] == p.port;
    assert DestsOnTile(flows[s], p.tile) && DestsOnTile(flows[r], p.tile);
  }

  type MasterPorts = map<(TileLoc, Amsel), set<Port>>

  ghost predicate Selects(m: MasterPorts, p: PhysPort, amsel: Amsel)
  {
    p.dir == DST && (p.tile, amsel) in m && p.port in m[(p.tile, amsel)]
  }

  /** The ports under a pair are those some source in `done` with that pair feeds. */
  ghost predicate MasterPortsOk(flows: Flows, done: seq<PhysPortAndID>, slaves: map<PhysPortAndID, Amsel>,
                                m: MasterPorts)
  {
    && (forall s :: s in done ==> s in slaves)
    && (forall p, amsel :: Selects(m, p, amsel) <==> exists s :: s in done && slaves[s] == amsel && Feeds(flows, s, p))
  }

  method InsertPorts(m: MasterPorts, key: (TileLoc, Amsel), dsts: seq<PhysPortAndID>) returns (r: MasterPorts)
    requires DestsOnTile(dsts, key.0)
    ensures forall p, amsel :: Selects(r, p, amsel) <==>
              Selects(m, p, amsel) || ((p.tile, amsel) == key && exists k :: 0 <= k < |dsts| && dsts[k].physPort == p)
  {
    r := m;
    for i := 0 to |dsts|
      invariant forall p, amsel :: Selects(r, p, amsel) <==>
                  Selects(m, p, amsel) || ((p.tile, amsel) == key && exists k :: 0 <= k < i && dsts[k].physPort == p)
    {
      var before := r;
      r := InsertPort(before, key, dsts[i].physPort);
    }
  }

  method InsertPort(m: MasterPorts, key: (TileLoc, Amsel), d: PhysPort) returns (r: MasterPorts)
    requires d.tile == key.0 && d.dir == DST
    ensures forall p, amsel :: Selects(r, p, amsel) <==> Selects(m, p, amsel) || ((p.tile, amsel) == key && p == d)
  {
    r := m[key := (if key in m then m[key] else {}) + {d.port}];
  }

  ghost predicate HasPair(amsels: map<TileLoc, Amsels>, s: PhysPortAndID)
  {
    s.physPort.tile in amsels && s in amsels[s.physPort.tile]
  }

  /** The connections of one tile. */
  function FlowsAt(flows: Flows, loc: TileLoc): (r: Flows)
  {
    map s | s in flows && s.physPort.tile == loc :: flows[s]
  }

  /** A component with more port lists than msels, or more components than arbiters and no fewer sources than msels. */
  ghost predicate Crowded(conns: Flows, limit: Limits)
  {
    || TooManyLists(conns, limit.numMSels)
    || (TooManyComponents(conns, limit.numArbiters) && !FewSources(conns, limit.numArbiters, limit.numMSels))
  }

  /** What the solver of a tile has to place: its components, in the order of the destination ports. */
  ghost function TilePlan(flows: Flows, order: seq<PhysPortAndID>, limits: TileLoc -> Limits, loc: TileLoc): (p: Plan)
  {
    var conns := FlowsAt(flows, loc);
    Plan(conns, ComponentsIn(conns, PortsInOrder(flows, order, loc)), limits(loc).numArbiters, limits(loc).numMSels)
  }

  /** Every source has destinations, and the components of every tile can be placed. */
  ghost predicate Routable(flows: Flows, order: seq<PhysPortAndID>, limits: TileLoc -> Limits)
  {
    forall s :: s in flows ==> flows[s] != [] && Placeable(TilePlan(flows, order, limits, s.physPort.tile))
  }

  /** Why there may be no pairs: a source without destinations, or a source on a crowded tile. */
  ghost predicate NoRouting(flows: Flows, limits: TileLoc -> Limits)
  {
    exists s :: s in flows && (flows[s] == [] || Crowded(FlowsAt(flows, s.physPort.tile), limits(s.physPort.tile)))
  }

  /** Every tile has an arbiter for each of its components. */
  ghost predicate EnoughArbiters(flows: Flows, limits: TileLoc -> Limits)
  {
    forall s :: s in flows ==>
      !TooManyComponents(FlowsAt(flows, s.physPort.tile), limits(s.physPort.tile).numArbiters)
  }

  /** A single flow to a single port can be routed on every switch with an arbiter and an msel. */
  lemma SingleFlowRoutes(s: PhysPortAndID, d: PhysPortAndID, limits: TileLoc -> Limits)
    requires limits(s.physPort.tile).numArbiters >= 1 && limits(s.physPort.tile).numMSels >= 1
    ensures EnoughArbiters(map[s := [d]], limits) && !NoRouting(map[s := [d]], limits)
  {
    var flows: Flows := map[s := [d]];
    var conns := FlowsAt(flows, s.physPort.tile);
    assert conns == flows;
    SingleComponent(conns, s, d);
    hide Components, ListsAt, FlowsAt;
  }

  lemma SingleComponent(conns: Flows, s: PhysPortAndID, d: PhysPortAndID)
    requires conns == map[s := [d]]
    ensures |Components(conns)| <= 1 && forall c :: |ListsAt(conns, c)| <= 1
  {
    assert conns[s][0].physPort.port == d.physPort.port;
    assert FedPorts(conns) == {d.physPort.port};
    assert Components(conns) == {ComponentOf(conns, d.physPort.port)};
    forall c
      ensures |ListsAt(conns, c)| <= 1
    {
      assert ListsAt(conns, c) <= {PortsOf(conns[s])};
      SubsetSize(ListsAt(conns, c), {PortsOf(conns[s])});
    }
  }

  lemma TileIsFlows(t: Tile, loc: TileLoc, flows: Flows, order: seq<PhysPortAndID>, limits: TileLoc -> Limits)
    requires TileHas(t, loc, flows, order, limits) && forall s :: s in order <==> s in flows
    ensures t.srcToDst == FlowsAt(flows, loc) && PlanOf(t) == TilePlan(flows, order, limits, loc)
  {
    hide PortsInOrder, ComponentsIn;
  }

  /** A tile the solver gives up on is crowded, and some source is on it. */
  lemma GivenUp(t: Tile, loc: TileLoc, flows: Flows, order: seq<PhysPortAndID>, limits: TileLoc -> Limits)
    requires TileHas(t, loc, flows, order, limits) && (forall s :: s in order <==> s in flows) && Decided(t, false)
    ensures NoRouting(flows, limits) && !Routable(flows, order, limits)
  {
    TileIsFlows(t, loc, flows, order, limits);
    var conns := FlowsAt(flows, loc);
    hide TileHas, TilePlan, PlanOf, Placeable;
    assert Crowded(conns, limits(loc)) by { assert Decided(t, false); TileLimits(t, loc, flows, order, limits); }
    var s := CrowdedSource(conns, limits(loc));
    assert s in flows && s.physPort.tile == loc;
  }

  lemma TileLimits(t: Tile, loc: TileLoc, flows: Flows, order: seq<PhysPortAndID>, limits: TileLoc -> Limits)
    requires TileHas(t, loc, flows, order, limits)
    ensures t.numArbiters == limits(loc).numArbiters && t.numMSels == limits(loc).numMSels
  {
  }

  lemma CrowdedSource(conns: Flows, limit: Limits) returns (s: PhysPortAndID)
    requires Crowded(conns, limit)
    ensures s in conns
  {
    NoComponents();
    hide Components, ListsAt;
    s :| s in conns;
  }

  lemma NoComponents()
    ensures Components(map[]) == {}
  {
    assert FedPorts(map[]) == {};
    hide ComponentOf, FedPorts;
  }

  lemma TilePlaceable(tiles: map<TileLoc, Tile>, flows: Flows, order: seq<PhysPortAndID>, limits: TileLoc -> Limits,
                      s: PhysPortAndID)
    requires TilesHave(tiles, flows, order, limits) && (forall r :: r in order <==> r in flows) && s in flows
    requires forall a :: a in tiles ==> Decided(tiles[a], true)
    ensures Placeable(TilePlan(flows, order, limits, s.physPort.tile))
  {
    var loc := s.physPort.tile;
    assert TileHas(tiles[loc], loc, flows, order, limits) && Decided(tiles[loc], true);
    TileIsFlows(tiles[loc], loc, flows, order, limits);
    hide TileHas, TilesHave, TooManyComponents, TooManyLists, TilePlan, PlanOf, Placeable;
  }

  /** With enough arbiters, success leaves no reason to fail. */
  lemma NothingWrong(tiles: map<TileLoc, Tile>, flows: Flows, order: seq<PhysPortAndID>, limits: TileLoc -> Limits,
                     s: PhysPortAndID)
    requires TilesHave(tiles, flows, order, limits) && (forall r :: r in order <==> r in flows) && s in flows
    requires (forall a :: a in tiles ==> Decided(tiles[a], true)) && EnoughArbiters(flows, limits)
    ensures !Crowded(FlowsAt(flows, s.physPort.tile), limits(s.physPort.tile))
  {
    var loc := s.physPort.tile;
    assert TileHas(tiles[loc], loc, flows, order, limits) && Decided(tiles[loc], true);
    TileIsFlows(tiles[loc], loc, flows, order, limits);
    TileLimits(tiles[loc], loc, flows, order, limits);
    hide TileHas, TilesHave, TooManyComponents, TooManyLists, TilePlan, PlanOf, Placeable, FewSources;
  }

  lemma NoPair(tiles: map<TileLoc, Tile>, amsels: map<TileLoc, Amsels>, flows: Flows, order: seq<PhysPortAndID>,
               limits: TileLoc -> Limits, s: PhysPortAndID)
    requires TilesHave(tiles, flows, order, limits) && TilesSolved(tiles, amsels) && s in order && !HasPair(amsels, s)
    ensures s in flows && flows[s] == []
  {
    hide ArbitersShared, SamePorts;
    assert Solved(tiles[s.physPort.tile], amsels[s.physPort.tile]);
    assert TileHas(tiles[s.physPort.tile], s.physPort.tile, flows, order, limits);
  }

  method ReadPairs(g: AMSelGenerator, flows: Flows, order: seq<PhysPortAndID>)
    returns (ok: bool, m: MasterPorts, slaves: map<PhysPortAndID, Amsel>)
    requires FlowsOk(flows) && NoDup(order) && forall s :: s in order <==> s in flows
    ensures ok ==> MasterPortsOk(flows, order, slaves, m) && PairsRead(flows, g.Pairs(), slaves)
    ensures !ok ==> exists s :: s in flows && !HasPair(g.Pairs(), s)
  {
    m, slaves := map[], map[];
    for k := 0 to |order|
      invariant forall s :: s in slaves <==> s in order[..k]
      invariant forall s :: s in slaves ==>
                  s.physPort.tile in g.tiles && s in g.Pairs()[s.physPort.tile]
                    && slaves[s] == g.Pairs()[s.physPort.tile][s]
      invariant MasterPortsOk(flows, order[..k], slaves, m)
    {
      hide MasterPortsOk, Selects;
      var s := order[k];
      assert s in order && s !in order[..k] && order[..k + 1] == order[..k] + [s];
      hide NoDup;
      var amsel := g.GetAMSel(s.physPort.tile, s);
      if amsel == None {
        assert !HasPair(g.Pairs(), s);
        return false, m, slaves;
      }
      ghost var m0 := m;
      m := InsertPorts(m, (s.physPort.tile, amsel.value), flows[s]);
      MasterPortsNext(flows, order[..k], slaves, m0, m, s, amsel.value);
      slaves := slaves[s := amsel.value];
    }
    assert order[..|order|] == order;
    return true, m, slaves;
  }

  lemma MasterPortsNext(flows: Flows, done: seq<PhysPortAndID>, slaves: map<PhysPortAndID, Amsel>, m: MasterPorts,
                        m': MasterPorts,
                        s: PhysPortAndID, amsel: Amsel)
    requires FlowsOk(flows) && MasterPortsOk(flows, done, slaves, m) && s !in done && s in flows
    requires forall p, am :: Selects(m', p, am) <==>
               Selects(m, p, am)
               || ((p.tile, am) == (s.physPort.tile, amsel)
                   && exists k :: 0 <= k < |flows[s]| && flows[s][k].physPort == p)
    ensures MasterPortsOk(flows, done + [s], slaves[s := amsel], m')
  {
    var done', slaves' := done + [s], slaves[s := amsel];
    hide Selects, FlowsOk;
    forall p, am
      ensures Selects(m', p, am) <==> exists r :: r in done' && slaves'[r] == am && Feeds(flows, r, p)
    {
      if Selects(m, p, am) {
        var r :| r in done && slaves[r] == am && Feeds(flows, r, p);
        assert r in done' && slaves'[r] == am;
      }
      if Feeds(flows, s, p) {
        FedTile(flows, s, p);
        assert s in done' && slaves'[s] == amsel;
      }
    }
  }

  /** The master set of every port. */
  method BuildMastersets(m: MasterPorts) returns (sets: Mastersets)
    ensures forall p, amsel :: amsel in Get(sets, p) <==> Selects(m, p, amsel)
    ensures forall p :: p in sets ==> sets[p] != []
  {
    sets := map[];
    var todo := m.Keys;
    while todo != {}
      invariant todo <= m.Keys
      invariant forall p, amsel :: amsel in Get(sets, p) <==> Selects(m, p, amsel) && (p.tile, amsel) !in todo
      invariant forall p :: p in sets ==> sets[p] != []
    {
      var key :| key in todo;
      sets := PushAmsel(sets, key.0, key.1, m[key]);
      todo := todo - {key};
    }
  }

  method PushAmsel(before: Mastersets, tile: TileLoc, amsel: Amsel, ports: set<Port>) returns (sets: Mastersets)
    requires forall p :: p in before ==> before[p] != []
    ensures forall p, am :: am in Get(sets, p) <==>
              am in Get(before, p) || (am == amsel && p.tile == tile && p.dir == DST && p.port in ports)
    ensures forall p :: p in sets ==> sets[p] != []
  {
    sets := before;
    var rest := ports;
    while rest != {}
      invariant rest <= ports
      invariant forall p, am :: am in Get(sets, p) <==>
                  am in Get(before, p)
                  || (am == amsel && p.tile == tile && p.dir == DST && p.port in ports && p.port !in rest)
      invariant forall p :: p in sets ==> sets[p] != []
    {
      var port :| port in rest;
      var p := PhysPort(tile, port, DST);
      sets := sets[p := Get(sets, p) + [amsel]];
      rest := rest - {port};
    }
  }

  /** A pair is in a port's master set exactly if a source with that pair feeds the port. */
  ghost predicate MastersetsOk(flows: Flows, slaves: map<PhysPortAndID, Amsel>, sets: Mastersets)
  {
    && (forall p, amsel :: amsel in Get(sets, p) <==>
          exists s :: s in slaves && slaves[s] == amsel && Feeds(flows, s, p))
    && (forall p :: p in sets ==> sets[p] != [])
  }

  /** What a successful emission has found. */
  ghost predicate RoutingOk(flows: Flows, limits: TileLoc -> Limits, sets: Mastersets, slaves: map<PhysPortAndID,
                            Amsel>)
  {
    && PairsInRange(flows, limits, slaves) && ArbitersAgree(flows, slaves) && PairsAgree(flows, slaves)
    && MastersetsOk(flows, slaves, sets)
  }

  /** What is known of the pairs once they are found. */
  ghost predicate PairsOk(flows: Flows, order: seq<PhysPortAndID>, limits: TileLoc -> Limits, m: MasterPorts,
                          slaves: map<PhysPortAndID, Amsel>)
  {
    && PairsInRange(flows, limits, slaves) && ArbitersAgree(flows, slaves) && PairsAgree(flows, slaves)
    && MasterPortsOk(flows, order, slaves, m)
  }

  /** The generator with all tiles solved, or the reason why not. */
  method SolveTiles(flows: Flows, order: seq<PhysPortAndID>, limits: TileLoc -> Limits)
    returns (ok: bool, g: AMSelGenerator)
    requires FlowsOk(flows) && NoDup(order) && forall s :: s in order <==> s in flows
    ensures TilesHave(g.States(), flows, order, limits)
    ensures ok ==> TilesSolved(g.States(), g.Pairs()) && forall a :: a in g.States() ==> Decided(g.States()[a], true)
    ensures !ok ==> NoRouting(flows, limits) && !Routable(flows, order, limits)
  {
    hide FlowsOk, NoDup, TilesHave, Decided, TilesSolved, TileHas, NoRouting, Routable;
    g := CollectConnections(flows, order, limits);
    ok := g.Solve();
    if !ok {
      ghost var loc :| loc in g.States() && Decided(g.States()[loc], false);
      TileHasAt(g.States(), flows, order, limits, loc);
      GivenUp(g.States()[loc], loc, flows, order, limits);
    }
  }

  method FindPairs(flows: Flows, order: seq<PhysPortAndID>, limits: TileLoc -> Limits)
    returns (ok: bool, m: MasterPorts, slaves: map<PhysPortAndID, Amsel>)
    requires FlowsOk(flows) && NoDup(order) && forall s :: s in order <==> s in flows
    ensures ok ==> PairsOk(flows, order, limits, m, slaves)
    ensures ok <==> Routable(flows, order, limits)
    ensures !ok ==> NoRouting(flows, limits)
    ensures EnoughArbiters(flows, limits) ==> (ok <==> !NoRouting(flows, limits))
  {
    hide FlowsOk, NoDup, TilesHave, PairsRead, Decided, TilesSolved, HasPair, NoRouting, EnoughArbiters, Routable;
    hide PairsInRange, ArbitersAgree, PairsAgree, MasterPortsOk;
    m, slaves := map[], map[];
    var g;
    ok, g := SolveTiles(flows, order, limits);
    if !ok { return; }
    ok, m, slaves := ReadPairs(g, flows, order);
    if !ok {
      ghost var s :| s in flows && !HasPair(g.Pairs(), s);
      NoPair(g.States(), g.Pairs(), flows, order, limits, s);
      EmptySource(flows, order, limits, s);
      return;
    }
    SolvedPairs(g.States(), g.Pairs(), flows, order, limits, slaves);
    AllPlaceable(g.States(), g.Pairs(), flows, order, limits, slaves);
    if EnoughArbiters(flows, limits) {
      AllRight(g.States(), g.Pairs(), flows, order, limits, slaves);
    }
  }

  method EmitPacketRouting(flows: Flows, order: seq<PhysPortAndID>, limits: TileLoc -> Limits)
    returns (ok: bool, sets: Mastersets, slaves: map<PhysPortAndID, Amsel>)
    requires FlowsOk(flows) && NoDup(order) && forall s :: s in order <==> s in flows
    ensures ok ==> RoutingOk(flows, limits, sets, slaves)
    ensures ok <==> Routable(flows, order, limits)
    ensures !ok ==> NoRouting(flows, limits)
    ensures EnoughArbiters(flows, limits) ==> (ok <==> !NoRouting(flows, limits))
  {
    hide FlowsOk, NoDup, Selects, NoRouting, EnoughArbiters, ArbitersAgree, PairsAgree, Routable;
    sets := map[];
    var m;
    ok, m, slaves := FindPairs(flows, order, limits);
    if !ok { return; }
    sets := BuildMastersets(m);
    SetsOk(flows, order, slaves, m, sets);
  }

  lemma EmptySource(flows: Flows, order: seq<PhysPortAndID>, limits: TileLoc -> Limits, s: PhysPortAndID)
    requires s in flows && flows[s] == []
    ensures NoRouting(flows, limits) && !Routable(flows, order, limits)
  {
    hide Crowded, FlowsAt, TilePlan, Placeable;
  }

  lemma AllPlaceable(tiles: map<TileLoc, Tile>, amsels: map<TileLoc, Amsels>, flows: Flows, order: seq<PhysPortAndID>,
                     limits: TileLoc -> Limits, slaves: map<PhysPortAndID, Amsel>)
    requires TilesHave(tiles, flows, order, limits) && (forall r :: r in order <==> r in flows)
    requires TilesSolved(tiles, amsels) && PairsRead(flows, amsels, slaves)
    requires forall a :: a in tiles ==> Decided(tiles[a], true)
    ensures Routable(flows, order, limits)
  {
    hide TilesHave, TilesSolved, Decided, TilePlan, Placeable, PairsRead;
    forall s | s in flows
      ensures flows[s] != [] && Placeable(TilePlan(flows, order, limits, s.physPort.tile))
    {
      TilePlaceable(tiles, flows, order, limits, s);
      HasDests(tiles, amsels, flows, order, limits, slaves, s);
    }
  }

  lemma AllRight(tiles: map<TileLoc, Tile>, amsels: map<TileLoc, Amsels>, flows: Flows, order: seq<PhysPortAndID>,
                 limits: TileLoc -> Limits, slaves: map<PhysPortAndID, Amsel>)
    requires TilesHave(tiles, flows, order, limits) && (forall r :: r in order <==> r in flows)
    requires TilesSolved(tiles, amsels) && PairsRead(flows, amsels, slaves)
    requires (forall a :: a in tiles ==> Decided(tiles[a], true)) && EnoughArbiters(flows, limits)
    ensures !NoRouting(flows, limits)
  {
    hide TilesHave, TilesSolved, Decided, EnoughArbiters, Crowded, FlowsAt, PairsRead;
    forall s | s in flows
      ensures flows[s] != [] && !Crowded(FlowsAt(flows, s.physPort.tile), limits(s.physPort.tile))
    {
      NothingWrong(tiles, flows, order, limits, s);
      HasDests(tiles, amsels, flows, order, limits, slaves, s);
    }
  }

  lemma HasDests(tiles: map<TileLoc, Tile>, amsels: map<TileLoc, Amsels>, flows: Flows, order: seq<PhysPortAndID>,
                 limits: TileLoc -> Limits, slaves: map<PhysPortAndID, Amsel>, s: PhysPortAndID)
    requires TilesHave(tiles, flows, order, limits) && TilesSolved(tiles, amsels) && PairsRead(flows, amsels, slaves)
    requires s in order && s in flows
    ensures flows[s] != []
  {
    hide ArbitersShared, SamePorts;
    assert s in slaves && s.physPort.tile in tiles;
    assert TileHas(tiles[s.physPort.tile], s.physPort.tile, flows, order, limits);
    assert Solved(tiles[s.physPort.tile], amsels[s.physPort.tile]);
  }

  lemma TileHasAt(tiles: map<TileLoc, Tile>, flows: Flows, order: seq<PhysPortAndID>, limits: TileLoc -> Limits,
                  loc: TileLoc)
    requires TilesHave(tiles, flows, order, limits) && loc in tiles
    ensures TileHas(tiles[loc], loc, flows, order, limits)
  {
  }

  lemma SetsOk(flows: Flows, order: seq<PhysPortAndID>, slaves: map<PhysPortAndID, Amsel>, m: MasterPorts,
               sets: Mastersets)
    requires MasterPortsOk(flows, order, slaves, m) && (forall s :: s in order <==> s in flows)
    requires (forall s :: s in slaves <==> s in flows)
    requires forall p, amsel :: amsel in Get(sets, p) <==> Selects(m, p, amsel)
    requires forall p :: p in sets ==> sets[p] != []
    ensures MastersetsOk(flows, slaves, sets)
  {
    hide Selects, Feeds;
  }
}
