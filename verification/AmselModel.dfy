/**
 * Assigning an (arbiter, msel) pair to every source of a switch: sources that share a destination
 * port, directly or through others, form a group; a group gets an arbiter, and within an arbiter
 * each distinct list of destination ports gets an msel.
 */
module AmselModel {
  import opened Common
  import opened PacketTypes

  type Source = PhysPortAndID

  type Amsels = map<Source, (nat, nat)>

  function PortsOf(dsts: seq<PhysPortAndID>): (ports: seq<Port>)
    ensures |ports| == |dsts| && forall i :: 0 <= i < |dsts| ==> ports[i] == dsts[i].physPort.port
  {
    seq(|dsts|, i requires 0 <= i < |dsts| => dsts[i].physPort.port)
  }

  // ---- msels of one arbiter

  /** The state of one arbiter's msel generator. */
  datatype MSels = MSels(
    numMSels: nat,
    curMSel: nat,
    srcs: seq<Source>,
    connectionToMSel: map<seq<Port>, nat>,
    physPortToConnection: map<Source, seq<Port>>)

  /** A known list of destination ports keeps its msel; a new one takes the next free msel, if any is left. */
  function WithConnection(g: MSels, src: Source, key: seq<Port>): (r: Option<MSels>)
  {
    if key !in g.connectionToMSel && g.curMSel >= g.numMSels then None
    else
      var isNew := key !in g.connectionToMSel;
      Some(g.(curMSel := if isNew then g.curMSel + 1 else g.curMSel,
              connectionToMSel := if isNew then g.connectionToMSel[key := g.curMSel] else g.connectionToMSel,
              srcs := g.srcs + [src],
              physPortToConnection := g.physPortToConnection[src := key]))
  }

  /** Distinct connections have distinct msels, all in range, and every source has a connection with one. */
  ghost predicate MSelsOk(g: MSels)
  {
    && |g.connectionToMSel| == g.curMSel <= g.numMSels
    && (forall k :: k in g.connectionToMSel ==> g.connectionToMSel[k] < g.curMSel)
    && (forall j, k ::
          j in g.connectionToMSel && k in g.connectionToMSel && g.connectionToMSel[j] == g.connectionToMSel[k] ==>
            j == k)
    && (forall s :: s in g.srcs <==> s in g.physPortToConnection)
    && (forall s :: s in g.physPortToConnection ==> g.physPortToConnection[s] in g.connectionToMSel)
  }

  function MSel(g: MSels, s: Source): (m: Option<nat>)
  {
    if s in g.physPortToConnection && g.physPortToConnection[s] in g.connectionToMSel
    then Some(g.connectionToMSel[g.physPortToConnection[s]]) else None
  }

  /** The connections of `group` whose destination ports have no msel yet, repetitions included. */
  function NewConnections(t: Tile, known: map<seq<Port>, nat>, group: seq<Source>): (n: nat)
    requires forall s :: s in group ==> s in t.srcToDst
  {
    if group == [] then 0
    else
      var last := |group| - 1;
      NewConnections(t, known, group[..last]) + if PortsOf(t.srcToDst[group[last]]) in known then 0 else 1
  }

  /** Room for `group` beside the msels in use: a strict estimate, with the need counted in eight bits. */
  predicate HasRoom(t: Tile, g: MSels, group: seq<Source>)
    requires forall s :: s in group ==> s in t.srcToDst
  {
    g.curMSel + NewConnections(t, g.connectionToMSel, group) % 256 < t.numMSels
  }

  /** The distinct destination port lists of a group's sources. */
  function KeysOf(t: Tile, group: seq<Source>): (keys: set<seq<Port>>)
    requires forall s :: s in group ==> s in t.srcToDst
  {
    set k | 0 <= k < |group| :: PortsOf(t.srcToDst[group[k]])
  }

  lemma KeysOfNext(t: Tile, group: seq<Source>, k: nat)
    requires k < |group| && forall s :: s in group ==> s in t.srcToDst
    ensures KeysOf(t, group[..k + 1]) == KeysOf(t, group[..k]) + {PortsOf(t.srcToDst[group[k]])}
    ensures KeysOf(t, group[..k + 1]) <= KeysOf(t, group)
  {
    hide PortsOf;
    var a, b := KeysOf(t, group[..k]), KeysOf(t, group[..k + 1]);
    forall i | 0 <= i < k
      ensures PortsOf(t.srcToDst[group[i]]) in a && PortsOf(t.srcToDst[group[i]]) in b
    {
      assert group[..k][i] == group[..k + 1][i] == group[i];
    }
    assert group[..k + 1][k] == group[k];
  }

  lemma SubsetSize<T>(a: set<T>, b: set<T>)
    requires a <= b
    ensures |a| <= |b|
  {
    assert b == a + (b - a);
  }

  /** `now` holds all of `group` beside what `g` held, each source under its destination ports. */
  ghost predicate Extended(t: Tile, group: seq<Source>, g: MSels, now: MSels)
    requires forall s :: s in group ==> s in t.srcToDst
  {
    && MSelsOk(now) && now.numMSels == g.numMSels
    && now.connectionToMSel.Keys == g.connectionToMSel.Keys + KeysOf(t, group)
    && (forall s :: s in now.srcs <==> s in g.srcs || s in group)
    && (forall s :: s in group ==>
          s in now.physPortToConnection && now.physPortToConnection[s] == PortsOf(t.srcToDst[s]))
    && (forall s :: s in g.srcs && s !in group ==> SameKey(g, now, s))
  }

  ghost predicate SameKey(g: MSels, now: MSels, s: Source)
  {
    && s in g.physPortToConnection && s in now.physPortToConnection
    && now.physPortToConnection[s] == g.physPortToConnection[s]
  }

  lemma StartExtending(t: Tile, g: MSels)
    requires MSelsOk(g)
    ensures Extended(t, [], g, g)
  {
    assert KeysOf(t, []) == {};
  }

  lemma ExtendFails(t: Tile, group: seq<Source>, k: nat, g: MSels, now: MSels)
    requires k < |group| && forall s :: s in group ==> s in t.srcToDst
    requires Extended(t, group[..k], g, now) && WithConnection(now, group[k], PortsOf(t.srcToDst[group[k]])) == None
    ensures |g.connectionToMSel.Keys + KeysOf(t, group)| > g.numMSels
  {
    var key := PortsOf(t.srcToDst[group[k]]);
    assert |now.connectionToMSel.Keys + {key}| > now.numMSels;
    KeysOfNext(t, group, k);
    hide KeysOf;
    SubsetSize(now.connectionToMSel.Keys + {key}, g.connectionToMSel.Keys + KeysOf(t, group));
  }

  lemma ExtendNext(t: Tile, group: seq<Source>, k: nat, g: MSels, now: MSels)
    requires k < |group| && forall s :: s in group ==> s in t.srcToDst
    requires Extended(t, group[..k], g, now) && WithConnection(now, group[k], PortsOf(t.srcToDst[group[k]])).Some?
    ensures Extended(t, group[..k + 1], g, WithConnection(now, group[k], PortsOf(t.srcToDst[group[k]])).value)
  {
    hide Extended, WithConnection, MSelsOk, KeysOf, PortsOf;
    KeysOfNext(t, group, k);
    assert group[..k + 1] == group[..k] + [group[k]];
    var key := PortsOf(t.srcToDst[group[k]]);
    WithConnectionFacts(now, group[k], key);
    ExtendedMSelsOk(t, group[..k], g, now);
    WithConnectionOk(now, group[k], key);
    ExtendOne(t, group[..k], group[k], g, now, WithConnection(now, group[k], key).value);
  }

  lemma ExtendedMSelsOk(t: Tile, done: seq<Source>, g: MSels, now: MSels)
    requires (forall s :: s in done ==> s in t.srcToDst) && Extended(t, done, g, now)
    ensures MSelsOk(now)
  {
  }

  lemma ExtendOne(t: Tile, done: seq<Source>, src: Source, g: MSels, now: MSels, r: MSels)
    requires src in t.srcToDst && forall s :: s in done ==> s in t.srcToDst
    requires Extended(t, done, g, now)
    requires KeysOf(t, done + [src]) == KeysOf(t, done) + {PortsOf(t.srcToDst[src])}
    requires MSelsOk(r) && r.numMSels == now.numMSels
    requires r.connectionToMSel.Keys == now.connectionToMSel.Keys + {PortsOf(t.srcToDst[src])}
    requires r.srcs == now.srcs + [src]
    requires r.physPortToConnection == now.physPortToConnection[src := PortsOf(t.srcToDst[src])]
    ensures Extended(t, done + [src], g, r)
  {
    hide MSelsOk, KeysOf, PortsOf;
    forall s | s in g.srcs && s !in done + [src]
      ensures SameKey(g, r, s)
    {
      assert SameKey(g, now, s);
    }
    hide SameKey;
  }

  lemma WithConnectionFacts(g: MSels, src: Source, key: seq<Port>)
    requires WithConnection(g, src, key).Some?
    ensures var r := WithConnection(g, src, key).value;
            && r.numMSels == g.numMSels && r.connectionToMSel.Keys == g.connectionToMSel.Keys + {key}
            && r.srcs == g.srcs + [src] && r.physPortToConnection == g.physPortToConnection[src := key]
  {
  }

  lemma WithConnectionOk(g: MSels, src: Source, key: seq<Port>)
    requires MSelsOk(g) && WithConnection(g, src, key).Some?
    ensures MSelsOk(WithConnection(g, src, key).value)
  {
  }

  // ---- the connections of one tile

  datatype Tile = Tile(
    numArbiters: nat,
    numMSels: nat,
    dstPorts: seq<Port>,
    dstPortToIds: map<Port, seq<PhysPortAndID>>,
    srcToDst: map<Source, seq<PhysPortAndID>>,
    dstToSrc: map<PhysPortAndID, seq<Source>>)

  /** A tile without connections. */
  function EmptyTile(numArbiters: nat, numMSels: nat): (t: Tile)
  {
    Tile(numArbiters, numMSels, [], map[], map[], map[])
  }

  function Get<K, V>(m: map<K, seq<V>>, k: K): (v: seq<V>)
  {
    if k in m then m[k] else []
  }

  ghost predicate PortsIndexed(t: Tile)
  {
    && (forall p :: p in t.dstPorts <==> p in t.dstPortToIds)
    && (forall p :: p in t.dstPortToIds ==> t.dstPortToIds[p] != [])
    && (forall d :: d in t.dstToSrc ==> d.physPort.port in t.dstPortToIds)
  }

  ghost predicate IdsIndexed(t: Tile)
  {
    forall p, d :: p in t.dstPortToIds && d in t.dstPortToIds[p] ==> d.physPort.port == p && d in t.dstToSrc
  }

  ghost predicate BackwardOk(t: Tile)
  {
    && (forall d :: d in t.dstToSrc ==> t.dstToSrc[d] != [])
    && (forall d, s :: d in t.dstToSrc && s in t.dstToSrc[d] ==> s in t.srcToDst && d in t.srcToDst[s])
  }

  ghost predicate ForwardOk(t: Tile)
  {
    forall s, d :: s in t.srcToDst && d in t.srcToDst[s] ==>
      && d.physPort.port in t.dstPortToIds && d in t.dstPortToIds[d.physPort.port]
      && d in t.dstToSrc && s in t.dstToSrc[d]
  }

  ghost predicate DirectionsOk(t: Tile)
  {
    && (forall s :: s in t.srcToDst ==> s.physPort.dir == SRC)
    && (forall d :: d in t.dstToSrc ==> d.physPort.dir == DST)
  }

  /** The four indexes describe one set of connections from sources to destinations. */
  ghost predicate Consistent(t: Tile)
  {
    PortsIndexed(t) && IdsIndexed(t) && BackwardOk(t) && ForwardOk(t) && DirectionsOk(t)
  }

  /** One destination of a connection, recorded in all four indexes. */
  function Added(t: Tile, src: Source, d: PhysPortAndID): (r: Tile)
  {
    var p := d.physPort.port;
    t.(srcToDst := t.srcToDst[src := Get(t.srcToDst, src) + [d]],
       dstToSrc := t.dstToSrc[d := Get(t.dstToSrc, d) + [src]],
       dstPortToIds := t.dstPortToIds[p := Get(t.dstPortToIds, p) + [d]],
       dstPorts := t.dstPorts + [p])
  }

  function AddedAll(t: Tile, src: Source, dsts: seq<PhysPortAndID>): (r: Tile)
    ensures r.numArbiters == t.numArbiters && r.numMSels == t.numMSels
  {
    if dsts == [] then t.(srcToDst := t.srcToDst[src := Get(t.srcToDst, src)])
    else Added(AddedAll(t, src, dsts[..|dsts| - 1]), src, dsts[|dsts| - 1])
  }

  lemma {:induction false} AddedAllOk(t: Tile, src: Source, dsts: seq<PhysPortAndID>)
    requires Consistent(t) && src.physPort.dir == SRC
    requires forall k :: 0 <= k < |dsts| ==> dsts[k].physPort.dir == DST
    ensures Consistent(AddedAll(t, src, dsts))
    ensures AddedAll(t, src, dsts).srcToDst == t.srcToDst[src := Get(t.srcToDst, src) + dsts]
    decreases |dsts|
  {
    hide Consistent;
    if dsts == [] {
      assert Get(t.srcToDst, src) + dsts == Get(t.srcToDst, src);
      SourceOk(t, src);
    } else {
      var n := |dsts| - 1;
      AddedAllOk(t, src, dsts[..n]);
      assert Get(t.srcToDst, src) + dsts == Get(t.srcToDst, src) + dsts[..n] + [dsts[n]];
      var before := AddedAll(t, src, dsts[..n]);
      assert AddedAll(t, src, dsts) == Added(before, src, dsts[n]);
      hide AddedAll, Added;
      AddedOk(before, src, dsts[n]);
    }
  }

  /** A source may have no destinations. */
  lemma SourceOk(t: Tile, src: Source)
    requires Consistent(t) && src.physPort.dir == SRC
    ensures Consistent(t.(srcToDst := t.srcToDst[src := Get(t.srcToDst, src)]))
  {
  }

  lemma AddedOk(t: Tile, src: Source, d: PhysPortAndID)
    requires Consistent(t) && src.physPort.dir == SRC && d.physPort.dir == DST && src in t.srcToDst
    ensures Consistent(Added(t, src, d)) && Added(t, src, d).srcToDst == t.srcToDst[src := t.srcToDst[src] + [d]]
  {
    AddedPorts(t, src, d);
    AddedIds(t, src, d);
    AddedBackward(t, src, d);
    AddedForward(t, src, d);
    hide PortsIndexed, IdsIndexed, BackwardOk, ForwardOk;
  }

  lemma AddedPorts(t: Tile, src: Source, d: PhysPortAndID)
    requires PortsIndexed(t)
    ensures PortsIndexed(Added(t, src, d))
  {
  }

  lemma AddedIds(t: Tile, src: Source, d: PhysPortAndID)
    requires IdsIndexed(t)
    ensures IdsIndexed(Added(t, src, d))
  {
  }

  lemma AddedBackward(t: Tile, src: Source, d: PhysPortAndID)
    requires BackwardOk(t)
    ensures BackwardOk(Added(t, src, d))
  {
  }

  lemma AddedForward(t: Tile, src: Source, d: PhysPortAndID)
    requires ForwardOk(t)
    ensures ForwardOk(Added(t, src, d))
  {
  }

  // ---- groups: connected components of the source/destination-port graph

  /** `ports` is closed: a source with one port in it has all its ports in it. */
  ghost predicate PortClosed(t: Tile, ports: set<Port>)
  {
    forall s, d, e :: s in t.srcToDst && d in t.srcToDst[s] && e in t.srcToDst[s] && d.physPort.port in ports ==>
      e.physPort.port in ports
  }

  /** `ports` is the connected component of `p`: the least closed set of ports that contains it. */
  ghost predicate IsComponent(t: Tile, p: Port, ports: set<Port>)
  {
    && p in ports && PortClosed(t, ports)
    && forall s :: p in s && PortClosed(t, s) ==> ports <= s
  }

  /** What the search has finished with is closed in all directions. */
  ghost predicate Explored(t: Tile, visited: set<PhysPortAndID>, ports: set<Port>)
  {
    && (forall s, d :: s in visited && s in t.srcToDst && d in t.srcToDst[s] ==> d in visited)
    && (forall d :: d in visited && d !in t.srcToDst ==> d.physPort.port in ports)
    && (forall p, d :: p in ports && d in Get(t.dstPortToIds, p) ==> d in visited)
    && (forall p, d, s :: p in ports && d in Get(t.dstPortToIds, p) && s in Get(t.dstToSrc, d) ==> s in visited)
  }

  /** The same, with what is still in the queue counted as visited. */
  ghost predicate Exploring(t: Tile, visited: set<PhysPortAndID>, ports: set<Port>, q: seq<PhysPortAndID>)
  {
    && (forall s, d :: s in visited && s in t.srcToDst && d in t.srcToDst[s] ==> d in visited || d in q)
    && (forall d :: d in visited && d !in t.srcToDst ==> d.physPort.port in ports)
    && (forall p, d :: p in ports && d in Get(t.dstPortToIds, p) ==> d in visited || d in q)
    && (forall p, d, s :: p in ports && d in Get(t.dstPortToIds, p) && s in Get(t.dstToSrc, d) ==>
          s in visited || s in q)
  }

  function Universe(t: Tile): (u: set<PhysPortAndID>)
  {
    t.srcToDst.Keys + t.dstToSrc.Keys
  }

  /** `x` touches `ports`: a destination by its port, a source by one of its destinations. */
  ghost predicate Touches(t: Tile, x: PhysPortAndID, ports: set<Port>)
  {
    if x in t.srcToDst then exists d :: d in t.srcToDst[x] && d.physPort.port in ports
    else x.physPort.port in ports
  }

  /** Everything reached from `p` stays in every closed set of ports around `p`. */
  ghost predicate Confined(t: Tile, p: Port, xs: seq<PhysPortAndID>, ports: set<Port>)
  {
    forall s :: p in s && PortClosed(t, s) ==> ports <= s && forall x :: x in xs ==> Touches(t, x, s)
  }

  /** The ids at a port followed by all sources of these ids, as the search queues them. */
  ghost predicate QueuedFor(t: Tile, p: Port, more: seq<PhysPortAndID>)
  {
    forall x :: x in more <==>
      x in Get(t.dstPortToIds, p) || exists d :: d in Get(t.dstPortToIds, p) && x in Get(t.dstToSrc, d)
  }

  method PortNeighbours(t: Tile, p: Port) returns (more: seq<PhysPortAndID>)
    ensures QueuedFor(t, p, more)
  {
    var ids := Get(t.dstPortToIds, p);
    more := ids;
    for k := 0 to |ids|
      invariant forall x :: x in more <==> x in ids || exists d :: d in ids[..k] && x in Get(t.dstToSrc, d)
    {
      more := more + Get(t.dstToSrc, ids[k]);
      assert ids[..k + 1] == ids[..k] + [ids[k]];
    }
    assert ids[..|ids|] == ids;
  }

  // ---- one turn of the search, by cases

  lemma PopVisited(t: Tile, visited: set<PhysPortAndID>, ports: set<Port>, q: seq<PhysPortAndID>)
    requires q != [] && q[0] in visited && Exploring(t, visited, ports, q)
    ensures Exploring(t, visited, ports, q[1..])
  {
    assert q == [q[0]] + q[1..];
  }

  lemma PopSource(t: Tile, visited: set<PhysPortAndID>, ports: set<Port>, q: seq<PhysPortAndID>)
    requires q != [] && q[0] in t.srcToDst && Exploring(t, visited, ports, q)
    ensures Exploring(t, visited + {q[0]}, ports, q[1..] + t.srcToDst[q[0]])
  {
    assert q == [q[0]] + q[1..];
  }

  lemma PopKnownPort(t: Tile, visited: set<PhysPortAndID>, ports: set<Port>, q: seq<PhysPortAndID>)
    requires q != [] && q[0] !in t.srcToDst && q[0].physPort.port in ports && Exploring(t, visited, ports, q)
    ensures Exploring(t, visited + {q[0]}, ports, q[1..])
  {
    assert q == [q[0]] + q[1..];
  }

  lemma PopNewPort(t: Tile, visited: set<PhysPortAndID>, ports: set<Port>, q: seq<PhysPortAndID>,
                   more: seq<PhysPortAndID>)
    requires q != [] && q[0] !in t.srcToDst && Exploring(t, visited, ports, q)
    requires QueuedFor(t, q[0].physPort.port, more)
    ensures Exploring(t, visited + {q[0]}, ports + {q[0].physPort.port}, q[1..] + more)
  {
    assert q == [q[0]] + q[1..];
  }

  lemma ConfinedSource(t: Tile, p: Port, q: seq<PhysPortAndID>, ports: set<Port>)
    requires Consistent(t) && q != [] && q[0] in t.srcToDst && Confined(t, p, q, ports)
    ensures Confined(t, p, q[1..] + t.srcToDst[q[0]], ports)
  {
    forall s | p in s && PortClosed(t, s)
      ensures forall x :: x in q[1..] + t.srcToDst[q[0]] ==> Touches(t, x, s)
    {
      assert q[0] in q && Touches(t, q[0], s);
    }
  }

  lemma ConfinedPort(t: Tile, p: Port, q: seq<PhysPortAndID>, ports: set<Port>, more: seq<PhysPortAndID>)
    requires Consistent(t) && q != [] && q[0] !in t.srcToDst && Confined(t, p, q, ports)
    requires QueuedFor(t, q[0].physPort.port, more)
    ensures Confined(t, p, q[1..] + more, ports + {q[0].physPort.port})
  {
    forall s | p in s && PortClosed(t, s)
      ensures q[0].physPort.port in s && forall x :: x in more ==> Touches(t, x, s)
    {
      assert q[0] in q && Touches(t, q[0], s);
    }
  }

  lemma ConfinedTail(t: Tile, p: Port, q: seq<PhysPortAndID>, ports: set<Port>)
    requires q != [] && Confined(t, p, q, ports)
    ensures Confined(t, p, q[1..], ports)
  {
  }

  // ---- the result of one search

  /** A finished search from `p` has found exactly the component of `p` and the sources attached to it. */
  lemma SearchFound(t: Tile, p: Port, visited0: set<PhysPortAndID>, ports0: set<Port>,
                    visited: set<PhysPortAndID>, ports: set<Port>, group: seq<Source>)
    requires Consistent(t) && p in t.dstPortToIds && p !in ports0
    requires Explored(t, visited0, ports0) && Exploring(t, visited, ports, []) && ports0 <= ports && visited0 <= visited
    requires Confined(t, p, [], ports - ports0) && Confined(t, p, group, {})
    requires forall d :: d in t.dstPortToIds[p] ==> d in visited
    requires forall s :: s in group <==> s in visited && s !in visited0 && s in t.srcToDst
    ensures Explored(t, visited, ports)
    ensures IsComponent(t, p, ports - ports0)
    ensures forall s :: s in group <==> s in t.srcToDst && Touches(t, s, ports - ports0)
  {
    hide Confined, PortsIndexed, IsComponent;
    var found := ports - ports0;
    assert Explored(t, visited, ports);
    hide Exploring;
    forall s, d | s in t.srcToDst && d in t.srcToDst[s] && d.physPort.port in found
      ensures s in visited && s !in visited0
    {
      assert d in Get(t.dstPortToIds, d.physPort.port) && s in Get(t.dstToSrc, d);
      assert d !in t.srcToDst;
    }
    FoundClosed(t, visited0, ports0, visited, ports);
    FirstAtPort(t, p);
    assert p in found;
    FoundLeast(t, p, found, group);
  }

  lemma FirstAtPort(t: Tile, p: Port)
    requires Consistent(t) && p in t.dstPortToIds
    ensures exists d :: d in t.dstPortToIds[p] && d !in t.srcToDst && d.physPort.port == p
  {
    assert t.dstPortToIds[p][0] in t.dstPortToIds[p];
  }

  lemma FoundClosed(t: Tile, visited0: set<PhysPortAndID>, ports0: set<Port>, visited: set<PhysPortAndID>,
                    ports: set<Port>)
    requires Consistent(t) && Explored(t, visited0, ports0) && Explored(t, visited, ports)
    ensures PortClosed(t, ports - ports0)
  {
    forall s, d, e | s in t.srcToDst && d in t.srcToDst[s] && e in t.srcToDst[s] && d.physPort.port in ports - ports0
      ensures e.physPort.port in ports - ports0
    {
      assert d in Get(t.dstPortToIds, d.physPort.port) && s in Get(t.dstToSrc, d);
      assert e in Get(t.dstPortToIds, e.physPort.port) && s in Get(t.dstToSrc, e);
    }
  }

  lemma FoundLeast(t: Tile, p: Port, found: set<Port>, group: seq<Source>)
    requires p in found && PortClosed(t, found) && Confined(t, p, [], found) && Confined(t, p, group, {})
    ensures IsComponent(t, p, found) && forall s :: s in group ==> Touches(t, s, found)
  {
  }

  lemma ConfinedGroup(t: Tile, p: Port, group: seq<Source>, q: seq<PhysPortAndID>, ports: set<Port>)
    requires Confined(t, p, group, {}) && q != [] && Confined(t, p, q, ports)
    ensures Confined(t, p, group + [q[0]], {})
  {
  }

  // ---- all groups

  /** The groups, with their components `comps`, cover the destination ports `done` without overlap. */
  ghost predicate GroupsOk(t: Tile, groups: seq<seq<Source>>, comps: seq<set<Port>>, ports: set<Port>)
  {
    && |groups| == |comps|
    && (forall i :: 0 <= i < |groups| ==> IsGroup(t, groups[i], comps[i]))
    && (forall i, j :: 0 <= i < j < |comps| ==> comps[i] !! comps[j])
    && (forall p :: p in ports <==> exists i :: 0 <= i < |comps| && p in comps[i])
  }

  /** `group` lists, once each, the sources attached to the connected component `comp`. */
  ghost predicate IsGroup(t: Tile, group: seq<Source>, comp: set<Port>)
  {
    && (exists p :: IsComponent(t, p, comp))
    && NoDup(group)
    && (forall s :: s in group <==> s in t.srcToDst && Touches(t, s, comp))
  }

  /** Sources of one component are in one group only. */
  lemma GroupsDisjoint(t: Tile, groups: seq<seq<Source>>, comps: seq<set<Port>>, ports: set<Port>, i: nat, j: nat,
                       s: Source)
    requires GroupsOk(t, groups, comps, ports) && i < |groups| && j < |groups| && s in groups[i] && s in groups[j]
    ensures i == j
  {
    assert IsGroup(t, groups[i], comps[i]) && IsGroup(t, groups[j], comps[j]);
    var p :| IsComponent(t, p, comps[i]);
    var d :| d in t.srcToDst[s] && d.physPort.port in comps[i];
    var e :| e in t.srcToDst[s] && e.physPort.port in comps[j];
    assert e.physPort.port in comps[i];
  }

  lemma NoGroups(t: Tile)
    ensures GroupsOk(t, [], [], {}) && Explored(t, {}, {})
  {
  }

  lemma AppendGroup(t: Tile, groups: seq<seq<Source>>, comps: seq<set<Port>>, ports: set<Port>,
                    group: seq<Source>, comp: set<Port>)
    requires GroupsOk(t, groups, comps, ports) && IsGroup(t, group, comp) && comp !! ports
    ensures GroupsOk(t, groups + [group], comps + [comp], ports + comp)
  {
    hide IsGroup;
    var cs := comps + [comp];
    forall i, j | 0 <= i < j < |cs|
      ensures cs[i] !! cs[j]
    {
      if j == |comps| {
        forall x | x in comps[i] ensures x in ports { }
      }
    }
    forall x | x in ports + comp
      ensures exists i :: 0 <= i < |cs| && x in cs[i]
    {
      if x in comp {
        assert x in cs[|comps|];
      } else {
        var i :| 0 <= i < |comps| && x in comps[i];
        assert x in cs[i];
      }
    }
  }

  // ---- the assignment

  /** The generator holds exactly the sources of the groups it owns, each under its own destination ports. */
  ghost predicate Holds(t: Tile, g: MSels, a: nat, groups: seq<seq<Source>>, owner: seq<nat>)
    requires |owner| <= |groups|
  {
    && MSelsOk(g) && g.numMSels == t.numMSels
    && (forall s :: s in g.srcs <==> exists i :: 0 <= i < |owner| && owner[i] == a && s in groups[i])
    && (forall s :: s in g.srcs ==> s in t.srcToDst && g.physPortToConnection[s] == PortsOf(t.srcToDst[s]))
  }

  ghost predicate HasPort(t: Tile, s: Source, p: Port)
  {
    s in t.srcToDst && exists d :: d in t.srcToDst[s] && d.physPort.port == p
  }

  /** Sources with a common destination port have one arbiter. */
  ghost predicate ArbitersShared(t: Tile, amsels: Amsels)
  {
    forall s, r, p :: s in amsels && r in amsels && HasPort(t, s, p) && HasPort(t, r, p) ==> amsels[s].0 == amsels[r].0
  }

  ghost predicate SamePorts(t: Tile, s: Source, r: Source)
  {
    s in t.srcToDst && r in t.srcToDst && PortsOf(t.srcToDst[s]) == PortsOf(t.srcToDst[r])
  }

  /** What a solution of the tile is. */
  ghost predicate Solved(t: Tile, amsels: Amsels)
  {
    && (forall s :: s in amsels <==> s in t.srcToDst && t.srcToDst[s] != [])
    && (forall s :: s in amsels ==> amsels[s].0 < t.numArbiters && amsels[s].1 < t.numMSels)
    && ArbitersShared(t, amsels)
    && (forall s, r :: s in amsels && r in amsels && amsels[s] == amsels[r] ==> SamePorts(t, s, r))
  }

  ghost predicate TilesSolved(tiles: map<TileLoc, Tile>, amsels: map<TileLoc, Amsels>)
  {
    forall loc :: loc in tiles ==> loc in amsels && Solved(tiles[loc], amsels[loc])
  }

  /** The pairs read back from the generators. */
  ghost predicate Retrieved(gens: seq<MSels>, amsels: Amsels)
  {
    && (forall a, s :: 0 <= a < |gens| && s in gens[a].srcs ==> s in amsels)
    && (forall s :: s in amsels ==>
          amsels[s].0 < |gens| && s in gens[amsels[s].0].srcs && MSel(gens[amsels[s].0], s) == Some(amsels[s].1))
  }

  ghost predicate Assigned(t: Tile, groups: seq<seq<Source>>, gens: seq<MSels>, owner: seq<nat>)
  {
    && |owner| <= |groups| && |gens| <= t.numArbiters
    && (forall i :: 0 <= i < |owner| ==> owner[i] < |gens|)
    && (forall a :: 0 <= a < |gens| ==> Holds(t, gens[a], a, groups, owner))
  }

  /** A source with a destination is in a group. */
  lemma InSomeGroup(t: Tile, groups: seq<seq<Source>>, comps: seq<set<Port>>, ports: set<Port>, s: Source,
                    d: PhysPortAndID)
    returns (i: nat)
    requires Consistent(t) && GroupsOk(t, groups, comps, ports) && s in t.srcToDst && d in t.srcToDst[s]
    requires forall p :: p in t.dstPortToIds ==> p in ports
    ensures i < |groups| && s in groups[i] && d.physPort.port in comps[i]
  {
    hide PortsIndexed, IdsIndexed, BackwardOk, DirectionsOk, IsComponent, NoDup;
    i :| 0 <= i < |comps| && d.physPort.port in comps[i];
    assert IsGroup(t, groups[i], comps[i]);
  }

  /** The source `s` belongs to group `i`, so its arbiter is that group's. */
  lemma ArbiterOfGroup(t: Tile, groups: seq<seq<Source>>, comps: seq<set<Port>>, ports: set<Port>,
                       gens: seq<MSels>, owner: seq<nat>, amsels: Amsels, s: Source, i: nat)
    requires GroupsOk(t, groups, comps, ports) && Assigned(t, groups, gens, owner) && |owner| == |groups|
    requires Retrieved(gens, amsels) && i < |groups| && s in groups[i]
    ensures s in amsels && amsels[s].0 == owner[i] < |gens|
  {
    assert Holds(t, gens[owner[i]], owner[i], groups, owner);
    assert s in gens[owner[i]].srcs;
    var a := amsels[s].0;
    assert Holds(t, gens[a], a, groups, owner);
    var j :| 0 <= j < |owner| && owner[j] == a && s in groups[j];
    GroupsDisjoint(t, groups, comps, ports, i, j, s);
  }

  lemma AssignmentSolves(t: Tile, groups: seq<seq<Source>>, comps: seq<set<Port>>, ports: set<Port>,
                         gens: seq<MSels>, owner: seq<nat>, amsels: Amsels)
    requires Consistent(t) && GroupsOk(t, groups, comps, ports) && (forall p :: p in t.dstPortToIds ==> p in ports)
    requires Assigned(t, groups, gens, owner) && |owner| == |groups| && Retrieved(gens, amsels)
    ensures Solved(t, amsels)
  {
    hide Consistent, GroupsOk, MSelsOk;
    forall s
      ensures s in amsels <==> s in t.srcToDst && t.srcToDst[s] != []
      ensures s in amsels ==> amsels[s].0 < t.numArbiters && amsels[s].1 < t.numMSels
    {
      if s in t.srcToDst && t.srcToDst[s] != [] {
        var i := InSomeGroup(t, groups, comps, ports, s, t.srcToDst[s][0]);
        ArbiterOfGroup(t, groups, comps, ports, gens, owner, amsels, s, i);
      }
      if s in amsels {
        HasDestinations(t, groups, comps, ports, gens, owner, amsels, s);
      }
    }
    forall s, r, p | s in amsels && r in amsels && HasPort(t, s, p) && HasPort(t, r, p)
      ensures amsels[s].0 == amsels[r].0
    {
      var d :| d in t.srcToDst[s] && d.physPort.port == p;
      var e :| e in t.srcToDst[r] && e.physPort.port == p;
      var i := InSomeGroup(t, groups, comps, ports, s, d);
      var j := InSomeGroup(t, groups, comps, ports, r, e);
      SameComponent(t, groups, comps, ports, i, j, p);
      ArbiterOfGroup(t, groups, comps, ports, gens, owner, amsels, s, i);
      ArbiterOfGroup(t, groups, comps, ports, gens, owner, amsels, r, j);
    }
    forall s, r | s in amsels && r in amsels && amsels[s] == amsels[r]
      ensures SamePorts(t, s, r)
    {
      SameMSel(t, gens[amsels[s].0], amsels[s].0, groups, owner, s, r);
    }
  }

  lemma SameMSel(t: Tile, g: MSels, a: nat, groups: seq<seq<Source>>, owner: seq<nat>, s: Source, r: Source)
    requires |owner| <= |groups| && Holds(t, g, a, groups, owner)
    requires s in g.srcs && r in g.srcs && MSel(g, s) == MSel(g, r)
    ensures PortsOf(t.srcToDst[s]) == PortsOf(t.srcToDst[r])
  {
  }

  lemma HasDestinations(t: Tile, groups: seq<seq<Source>>, comps: seq<set<Port>>, ports: set<Port>,
                        gens: seq<MSels>, owner: seq<nat>, amsels: Amsels, s: Source)
    requires GroupsOk(t, groups, comps, ports) && Assigned(t, groups, gens, owner) && Retrieved(gens, amsels)
    requires s in amsels
    ensures s in t.srcToDst && t.srcToDst[s] != [] && amsels[s].0 < t.numArbiters && amsels[s].1 < t.numMSels
  {
    var a := amsels[s].0;
    assert Holds(t, gens[a], a, groups, owner);
    var i :| 0 <= i < |owner| && owner[i] == a && s in groups[i];
    assert IsGroup(t, groups[i], comps[i]);
  }

  lemma SameComponent(t: Tile, groups: seq<seq<Source>>, comps: seq<set<Port>>, ports: set<Port>, i: nat, j: nat,
                      p: Port)
    requires GroupsOk(t, groups, comps, ports) && i < |groups| && j < |groups| && p in comps[i] && p in comps[j]
    ensures i == j
  {
  }
}
