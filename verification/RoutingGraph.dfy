/** The routing graph: switch boxes, the channels between their ports, and paths along channels. */
module RoutingGraph {
  import opened Common
  import opened PacketTypes

  // Bundles that lead to a neighbouring switch box.
  const SOUTH: nat := 0
  const WEST: nat := 1
  const NORTH: nat := 2
  const EAST: nat := 3

  /** Ports of a (source box, destination box) pair and the index pairs that can be connected. */
  datatype Box = Box(srcPorts: seq<Port>, dstPorts: seq<Port>, available: set<(nat, nat)>)

  type Graph = map<(TileLoc, TileLoc), Box>

  /** An entry of the matrices kept per box. */
  datatype Cell = Cell(from: TileLoc, to: TileLoc, i: nat, j: nat)

  /** Leaving through bundle `out` one arrives `dcol`, `drow` further at bundle `into`. */
  datatype Hop = Hop(out: nat, into: nat, dcol: int, drow: int)

  function Hops(): (hops: seq<Hop>)
    ensures forall k, l :: 0 <= k < l < |hops| ==> hops[k].out != hops[l].out
  {
    [Hop(SOUTH, NORTH, 0, -1), Hop(NORTH, SOUTH, 0, 1), Hop(WEST, EAST, -1, 0), Hop(EAST, WEST, 1, 0)]
  }

  function Neighbour(t: TileLoc, h: Hop): (r: TileLoc)
  {
    TileLoc(t.col + h.dcol, t.row + h.drow)
  }

  predicate HasCell(g: Graph, u: PhysPort, v: PhysPort)
  {
    (u.tile, v.tile) in g && u.port in g[(u.tile, v.tile)].srcPorts && v.port in g[(u.tile, v.tile)].dstPorts
  }

  /** The matrix entry of the channel from `u` to `v`, by first occurrence of both ports. */
  function CellOf(g: Graph, u: PhysPort, v: PhysPort): (c: Cell)
    requires HasCell(g, u, v)
  {
    var box := g[(u.tile, v.tile)];
    Cell(u.tile, v.tile, IndexOf(box.srcPorts, u.port), IndexOf(box.dstPorts, v.port))
  }

  /** A connection inside one switch box. */
  ghost predicate Intra(g: Graph, u: PhysPort, v: PhysPort)
  {
    && v.tile == u.tile && v.dir == DST && (u.tile, u.tile) in g
    && exists i: nat, j: nat :: Connects(g[(u.tile, u.tile)], u.port, v.port, i, j)
  }

  predicate Connects(box: Box, p: Port, q: Port, i: nat, j: nat)
  {
    i < |box.srcPorts| && j < |box.dstPorts| && box.srcPorts[i] == p && box.dstPorts[j] == q && (i, j) in box.available
  }

  /** A wire to the neighbouring switch box in direction `h`. */
  predicate Inter(g: Graph, u: PhysPort, v: PhysPort, h: Hop)
  {
    && v == PhysPort(Neighbour(u.tile, h), Port(h.into, u.port.channel), DST)
    && (u.tile, v.tile) in g && u.port.bundle == h.out
    && v.port in g[(u.tile, v.tile)].dstPorts
  }

  ghost predicate InterAmong(g: Graph, u: PhysPort, v: PhysPort, hops: seq<Hop>)
  {
    exists h :: h in hops && Inter(g, u, v, h)
  }

  ghost predicate Edge(g: Graph, u: PhysPort, v: PhysPort)
  {
    Intra(g, u, v) || InterAmong(g, u, v, Hops())
  }

  /** Boxes between neighbours list the two ends of each wire. */
  ghost predicate GraphOk(g: Graph)
  {
    forall t, h, c ::
      h in Hops() && (t, Neighbour(t, h)) in g && Port(h.into, c) in g[(t, Neighbour(t, h))].dstPorts ==>
      Port(h.out, c) in g[(t, Neighbour(t, h))].srcPorts
  }

  lemma EdgeHasCell(g: Graph, u: PhysPort, v: PhysPort)
    requires GraphOk(g) && Edge(g, u, v)
    ensures HasCell(g, u, v) && v.dir == DST
  {
    if !Intra(g, u, v) {
      var h :| h in Hops() && Inter(g, u, v, h);
      assert u.port == Port(h.out, u.port.channel);
    }
  }

  /** All vertices an edge can lead to. */
  function Targets(g: Graph): (r: set<PhysPort>)
  {
    set k, j | k in g && 0 <= j < |g[k].dstPorts| :: PhysPort(k.1, g[k].dstPorts[j], DST)
  }

  lemma EdgeTarget(g: Graph, u: PhysPort, v: PhysPort)
    requires GraphOk(g) && Edge(g, u, v)
    ensures v in Targets(g)
  {
    EdgeHasCell(g, u, v);
    var j := IndexOf(g[(u.tile, v.tile)].dstPorts, v.port);
    assert v == PhysPort(v.tile, g[(u.tile, v.tile)].dstPorts[j], DST);
  }

  /** All channels out of a vertex. */
  method ChannelsFrom(g: Graph, u: PhysPort) returns (r: seq<PhysPort>)
    ensures forall v :: v in r <==> Edge(g, u, v)
  {
    var intra := IntraChannels(g, u);
    var inter := InterChannels(g, u);
    r := intra + inter;
  }

  method IntraChannels(g: Graph, u: PhysPort) returns (r: seq<PhysPort>)
    ensures forall v :: v in r <==> Intra(g, u, v)
  {
    r := [];
    if (u.tile, u.tile) !in g { return; }
    var box := g[(u.tile, u.tile)];
    for i := 0 to |box.srcPorts|
      invariant forall v :: v in r <==> InRow(box, u, v, i)
    {
      for j := 0 to |box.dstPorts|
        invariant forall v :: v in r <==>
                    InRow(box, u, v, i)
                    || (exists l: nat ::
                          l < j && v == PhysPort(u.tile, box.dstPorts[l], DST) && Connects(box, u.port, v.port, i, l))
      {
        if box.srcPorts[i] == u.port && (i, j) in box.available {
          r := r + [PhysPort(u.tile, box.dstPorts[j], DST)];
        }
      }
      assert forall v :: v in r <==> InRow(box, u, v, i + 1);
    }
  }

  /** A connection from one of the first `n` source ports. */
  ghost predicate InRow(box: Box, u: PhysPort, v: PhysPort, n: nat)
  {
    v.tile == u.tile && v.dir == DST && exists i: nat, j: nat :: i < n && Connects(box, u.port, v.port, i, j)
  }

  method InterChannels(g: Graph, u: PhysPort) returns (r: seq<PhysPort>)
    ensures forall v :: v in r <==> InterAmong(g, u, v, Hops())
  {
    r := [];
    var hops := Hops();
    for k := 0 to |hops|
      invariant forall v :: v in r <==> InterAmong(g, u, v, hops[..k])
    {
      var h := hops[k];
      var v := PhysPort(Neighbour(u.tile, h), Port(h.into, u.port.channel), DST);
      assert hops[..k + 1] == hops[..k] + [h];
      forall x
        ensures InterAmong(g, u, x, hops[..k + 1]) <==> InterAmong(g, u, x, hops[..k]) || Inter(g, u, x, h)
      {
        if Inter(g, u, x, h) { assert h in hops[..k + 1]; }
      }
      hide InterAmong;
      if (u.tile, v.tile) in g && u.port.bundle == h.out && v.port in g[(u.tile, v.tile)].dstPorts {
        r := r + [v];
      }
    }
    assert hops[..|hops|] == hops;
  }

  // ---- paths

  ghost predicate IsPath(g: Graph, p: seq<PhysPort>)
  {
    p != [] && (|p| > 1 ==> IsPath(g, p[..|p| - 1]) && Edge(g, p[|p| - 2], p[|p| - 1]))
  }

  ghost predicate Reachable(g: Graph, u: PhysPort, v: PhysPort)
  {
    exists p :: IsPath(g, p) && p[0] == u && p[|p| - 1] == v
  }

  ghost predicate Closed(g: Graph, s: set<PhysPort>)
  {
    forall u, v :: u in s && Edge(g, u, v) ==> v in s
  }

  /** A path that starts in a closed set stays there. */
  lemma {:induction false} PathStays(g: Graph, p: seq<PhysPort>, s: set<PhysPort>)
    requires IsPath(g, p) && p[0] in s && Closed(g, s)
    ensures p[|p| - 1] in s
    decreases |p|
  {
    if |p| > 1 {
      PathStays(g, p[..|p| - 1], s);
    }
  }
}
