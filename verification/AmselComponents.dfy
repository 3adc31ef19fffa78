/** The components of a tile's connections, by definition instead of by search, and when they can be served. */
module AmselComponents {
  import opened Common
  import opened PacketTypes
  import opened AmselModel

  type Connections = map<Source, seq<PhysPortAndID>>

  /** The ports some source has among its destinations. */
  function FedPorts(conns: Connections): (r: set<Port>)
  {
    set s, k | s in conns && 0 <= k < |conns[s]| :: conns[s][k].physPort.port
  }

  /** Connections alone, as a tile. */
  function Bare(conns: Connections): (t: Tile)
  {
    Tile(0, 0, [], map[], conns, map[])
  }

  /** What every closed set of ports around `p` contains. */
  ghost function ComponentOf(conns: Connections, p: Port): (r: set<Port>)
  {
    set q | q in FedPorts(conns) && forall c :: p in c && PortClosed(Bare(conns), c) ==> q in c
  }

  ghost function Components(conns: Connections): (r: set<set<Port>>)
  {
    set p | p in FedPorts(conns) :: ComponentOf(conns, p)
  }

  /** The distinct destination port lists of the sources attached to a component. */
  ghost function ListsAt(conns: Connections, comp: set<Port>): (r: set<seq<Port>>)
  {
    set s | s in conns && Touches(Bare(conns), s, comp) :: PortsOf(conns[s])
  }

  /** Some component needs more msels than an arbiter has. */
  ghost predicate TooManyLists(conns: Connections, numMSels: nat)
  {
    exists c :: c in Components(conns) && |ListsAt(conns, c)| > numMSels
  }

  ghost predicate TooManyComponents(conns: Connections, numArbiters: nat)
  {
    |Components(conns)| > numArbiters
  }

  // ---- the groups of the search are these components

  lemma BareClosed(t: Tile, ports: set<Port>)
    ensures PortClosed(t, ports) <==> PortClosed(Bare(t.srcToDst), ports)
  {
  }

  lemma BareTouches(t: Tile, s: Source, ports: set<Port>)
    ensures Touches(t, s, ports) <==> Touches(Bare(t.srcToDst), s, ports)
  {
  }

  lemma PortsAreFed(t: Tile)
    requires Consistent(t)
    ensures t.dstPortToIds.Keys == FedPorts(t.srcToDst)
  {
    forall p | p in t.dstPortToIds
      ensures p in FedPorts(t.srcToDst)
    {
      var d := t.dstPortToIds[p][0];
      assert d in t.dstPortToIds[p] && d in t.dstToSrc;
      var s := t.dstToSrc[d][0];
      assert s in t.dstToSrc[d] && s in t.srcToDst && d in t.srcToDst[s];
      var k :| 0 <= k < |t.srcToDst[s]| && t.srcToDst[s][k] == d;
      assert t.srcToDst[s][k].physPort.port == p;
    }
    forall p | p in FedPorts(t.srcToDst)
      ensures p in t.dstPortToIds
    {
      var s, k :| s in t.srcToDst && 0 <= k < |t.srcToDst[s]| && t.srcToDst[s][k].physPort.port == p;
      assert t.srcToDst[s][k] in t.srcToDst[s];
    }
  }

  /** A component is the component of each of its ports. */
  lemma AnyPort(t: Tile, p: Port, q: Port, comp: set<Port>)
    requires IsComponent(t, p, comp) && q in comp
    ensures IsComponent(t, q, comp)
  {
    forall c | q in c && PortClosed(t, c)
      ensures comp <= c
    {
      RestClosed(t, comp, c);
      assert p in comp - c ==> comp <= comp - c;
    }
  }

  lemma RestClosed(t: Tile, comp: set<Port>, c: set<Port>)
    requires PortClosed(t, comp) && PortClosed(t, c)
    ensures PortClosed(t, comp - c)
  {
  }

  lemma IsComponentOf(t: Tile, p: Port, comp: set<Port>)
    requires IsComponent(t, p, comp) && comp <= FedPorts(t.srcToDst)
    ensures comp == ComponentOf(t.srcToDst, p)
  {
    BareClosed(t, comp);
    forall q | q in comp
      ensures q in ComponentOf(t.srcToDst, p)
    {
      forall c | p in c && PortClosed(Bare(t.srcToDst), c)
        ensures q in c
      {
        BareClosed(t, c);
      }
    }
  }

  lemma GroupsAreComponents(t: Tile, groups: seq<seq<Source>>, comps: seq<set<Port>>)
    requires Consistent(t) && GroupsOk(t, groups, comps, t.dstPortToIds.Keys)
    ensures |Components(t.srcToDst)| == |groups|
    ensures forall i :: 0 <= i < |comps| ==> comps[i] in Components(t.srcToDst)
    ensures forall c :: c in Components(t.srcToDst) ==> c in comps
  {
    hide Consistent, GroupsOk, Components, FedPorts, ComponentOf;
    PortsAreFed(t);
    forall i | 0 <= i < |comps|
      ensures comps[i] in Components(t.srcToDst) && comps[i] != {}
    {
      OneComponent(t, groups, comps, i);
    }
    forall c | c in Components(t.srcToDst)
      ensures c in comps
    {
      var q := PortOfComponent(t.srcToDst, c);
      SomeComponent(t, groups, comps, q);
    }
    ComponentsDiffer(t, groups, comps);
    NoDupSize(comps);
    assert (set c | c in comps) == Components(t.srcToDst);
  }

  lemma PortOfComponent(conns: Connections, c: set<Port>) returns (q: Port)
    requires c in Components(conns)
    ensures q in FedPorts(conns) && c == ComponentOf(conns, q)
  {
    hide FedPorts, ComponentOf;
    q :| q in FedPorts(conns) && c == ComponentOf(conns, q);
  }

  lemma ComponentsDiffer(t: Tile, groups: seq<seq<Source>>, comps: seq<set<Port>>)
    requires GroupsOk(t, groups, comps, FedPorts(t.srcToDst)) && forall i :: 0 <= i < |comps| ==> comps[i] != {}
    ensures NoDup(comps) && |groups| == |comps|
  {
    hide IsGroup, FedPorts;
    forall i, j | 0 <= i < j < |comps|
      ensures comps[i] != comps[j]
    {
      assert comps[i] !! comps[j];
    }
  }

  lemma OneComponent(t: Tile, groups: seq<seq<Source>>, comps: seq<set<Port>>, i: nat)
    requires Consistent(t) && GroupsOk(t, groups, comps, FedPorts(t.srcToDst)) && i < |comps|
    ensures comps[i] in Components(t.srcToDst) && comps[i] != {}
  {
    hide Consistent, FedPorts, ComponentOf;
    assert IsGroup(t, groups[i], comps[i]);
    var p :| IsComponent(t, p, comps[i]);
    assert comps[i] <= FedPorts(t.srcToDst);
    IsComponentOf(t, p, comps[i]);
  }

  lemma SomeComponent(t: Tile, groups: seq<seq<Source>>, comps: seq<set<Port>>, q: Port)
    requires Consistent(t) && GroupsOk(t, groups, comps, FedPorts(t.srcToDst)) && q in FedPorts(t.srcToDst)
    ensures ComponentOf(t.srcToDst, q) in comps
  {
    hide Consistent, FedPorts, ComponentOf, IsComponent;
    var i :| 0 <= i < |comps| && q in comps[i];
    assert IsGroup(t, groups[i], comps[i]);
    var p :| IsComponent(t, p, comps[i]);
    AnyPort(t, p, q, comps[i]);
    assert comps[i] <= FedPorts(t.srcToDst);
    IsComponentOf(t, q, comps[i]);
  }

  lemma {:induction false} NoDupSize<T>(s: seq<T>)
    requires NoDup(s)
    ensures |set x | x in s| == |s|
  {
    if s != [] {
      var rest := s[1..];
      NoDupSize(rest);
      assert (set x | x in s) == (set x | x in rest) + {s[0]};
      assert s[0] !in rest;
    }
  }

  lemma KeysAreLists(t: Tile, group: seq<Source>, comp: set<Port>)
    requires IsGroup(t, group, comp)
    ensures (forall s :: s in group ==> s in t.srcToDst) && KeysOf(t, group) == ListsAt(t.srcToDst, comp)
  {
    hide NoDup, IsComponent, PortsOf;
    forall key | key in ListsAt(t.srcToDst, comp)
      ensures key in KeysOf(t, group)
    {
      var s :| s in t.srcToDst && Touches(Bare(t.srcToDst), s, comp) && key == PortsOf(t.srcToDst[s]);
      BareTouches(t, s, comp);
      var k :| 0 <= k < |group| && group[k] == s;
      assert PortsOf(t.srcToDst[group[k]]) == key;
    }
    forall key | key in KeysOf(t, group)
      ensures key in ListsAt(t.srcToDst, comp)
    {
      var k :| 0 <= k < |group| && key == PortsOf(t.srcToDst[group[k]]);
      assert group[k] in group;
      BareTouches(t, group[k], comp);
    }
  }
}
